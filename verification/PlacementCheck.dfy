/** check_placement (scripts/_spanning.py): the loops that collect problems, and
    that what they collect is what the findings mean. */
module PlacementCheck {
  import opened Text
  import opened VmCid
  import opened Placement
  import PlacementFields

  /** What the loop over the instances has gathered. */
  datatype Tally = Tally(
    perAz: map<string, nat>,
    vmCluster: seq<nat>,       // the instances with a problem, one entry a problem
    vmBand: seq<nat>,
    tags: seq<nat>,
    stamps: map<string, set<string>>,
    unknownStamps: seq<nat>,
    vmids: set<string>)

  /** The tally of a run of instances. */
  ghost predicate Counts(t: Tally, obs: Observation, entries: map<string, Entry>, expectStamped: bool, seen: seq<Instance>)
    requires entries.Keys <= obs.clusters.Keys
  {
    && CountsAzs(t, entries, seen)
    && CountsStamps(t, entries, seen)
    && CountsProblems(t, obs, entries, expectStamped, seen)
    && CountsVmids(t, entries, seen)
  }

  ghost predicate CountsAzs(t: Tally, entries: map<string, Entry>, seen: seq<Instance>) {
    t.perAz.Keys == entries.Keys && forall az | az in entries :: t.perAz[az] == 0 <==> !AzUsed(seen, az)
  }

  ghost predicate CountsStamps(t: Tally, entries: map<string, Entry>, seen: seq<Instance>) {
    && t.stamps.Keys == entries.Keys
    && (forall az, s | az in entries :: s in t.stamps[az] <==> StampSeen(seen, entries, az, s))
    && (t.unknownStamps == [] <==> forall az :: !StampSeen(seen, entries, az, UNKNOWN_CLUSTER))
  }

  ghost predicate CountsProblems(t: Tally, obs: Observation, entries: map<string, Entry>, expectStamped: bool, seen: seq<Instance>)
    requires entries.Keys <= obs.clusters.Keys
  {
    && (t.vmCluster == [] <==> forall i | 0 <= i < |seen| :: LocationOk(obs, entries, seen[i]))
    && (t.vmBand == [] <==> forall i | 0 <= i < |seen| :: BandOk(entries, seen[i]))
    && (t.tags == [] <==> forall i | 0 <= i < |seen| :: TagsOk(obs, entries, seen[i], expectStamped))
  }

  ghost predicate CountsVmids(t: Tally, entries: map<string, Entry>, seen: seq<Instance>) {
    forall v :: v in t.vmids <==> VmidSeen(seen, entries, v)
  }

  // ----------------------------------------------- one more instance

  lemma OneMoreStamp(seen: seq<Instance>, inst: Instance, entries: map<string, Entry>, az: string, stamp: string)
    ensures StampSeen(seen + [inst], entries, az, stamp)
       <==> StampSeen(seen, entries, az, stamp) || HasStamp(inst, entries, az, stamp)
  {
    hide HasStamp;
    var more := seen + [inst];
    assert more[|seen|] == inst;
    assert forall i | 0 <= i < |seen| :: more[i] == seen[i];
  }

  lemma OneMoreVmid(seen: seq<Instance>, inst: Instance, entries: map<string, Entry>, vmid: string)
    ensures VmidSeen(seen + [inst], entries, vmid) <==> VmidSeen(seen, entries, vmid) || HasVmid(inst, entries, vmid)
  {
    hide HasVmid;
    var more := seen + [inst];
    assert more[|seen|] == inst;
    assert forall i | 0 <= i < |seen| :: more[i] == seen[i];
  }

  lemma OneMoreAz(seen: seq<Instance>, inst: Instance, az: string)
    ensures AzUsed(seen + [inst], az) <==> AzUsed(seen, az) || inst.az == az
  {
    var more := seen + [inst];
    assert more[|seen|] == inst;
    assert forall i | 0 <= i < |seen| :: more[i] == seen[i];
  }

  /** How a tally changes with one more instance. */
  ghost predicate Adds(t: Tally, t': Tally, obs: Observation, entries: map<string, Entry>, expectStamped: bool, inst: Instance)
    requires entries.Keys <= obs.clusters.Keys
  {
    && AddsAz(t, t', entries, inst)
    && AddsStamp(t, t', entries, inst)
    && AddsProblems(t, t', obs, entries, expectStamped, inst)
    && (forall v :: v in t'.vmids <==> v in t.vmids || HasVmid(inst, entries, v))
  }

  ghost predicate AddsAz(t: Tally, t': Tally, entries: map<string, Entry>, inst: Instance) {
    && t.perAz.Keys == entries.Keys
    && t'.perAz == (if inst.az in entries then t.perAz[inst.az := t.perAz[inst.az] + 1] else t.perAz)
  }

  ghost predicate AddsStamp(t: Tally, t': Tally, entries: map<string, Entry>, inst: Instance) {
    && t.stamps.Keys == t'.stamps.Keys == entries.Keys
    && (forall az, s | az in entries :: s in t'.stamps[az] <==> s in t.stamps[az] || HasStamp(inst, entries, az, s))
    && (t'.unknownStamps == [] <==> t.unknownStamps == [] && !HasStamp(inst, entries, inst.az, UNKNOWN_CLUSTER))
  }

  ghost predicate AddsProblems(t: Tally, t': Tally, obs: Observation, entries: map<string, Entry>, expectStamped: bool, inst: Instance)
    requires entries.Keys <= obs.clusters.Keys
  {
    && (t'.vmCluster == [] <==> t.vmCluster == [] && LocationOk(obs, entries, inst))
    && (t'.vmBand == [] <==> t.vmBand == [] && BandOk(entries, inst))
    && (t'.tags == [] <==> t.tags == [] && TagsOk(obs, entries, inst, expectStamped))
  }

  lemma Counted(t: Tally, t': Tally, obs: Observation, entries: map<string, Entry>, expectStamped: bool,
      seen: seq<Instance>, inst: Instance)
    requires entries.Keys <= obs.clusters.Keys
    requires Counts(t, obs, entries, expectStamped, seen) && Adds(t, t', obs, entries, expectStamped, inst)
    ensures Counts(t', obs, entries, expectStamped, seen + [inst])
  {
    CountedVmids(t, t', entries, seen, inst);
    hide CountsVmids;
    CountedStamps(t, t', entries, seen, inst);
    hide CountsStamps;
    hide AddsStamp;
    CountedAzs(t, t', entries, seen, inst);
    hide CountsAzs;
    hide AddsAz;
    CountedProblems(t, t', obs, entries, expectStamped, seen, inst);
    hide CountsProblems;
    hide AddsProblems;
  }

  lemma CountedVmids(t: Tally, t': Tally, entries: map<string, Entry>, seen: seq<Instance>, inst: Instance)
    requires CountsVmids(t, entries, seen)
    requires forall v :: v in t'.vmids <==> v in t.vmids || HasVmid(inst, entries, v)
    ensures CountsVmids(t', entries, seen + [inst])
  {
    hide HasVmid;
    forall v ensures VmidSeen(seen + [inst], entries, v) <==> VmidSeen(seen, entries, v) || HasVmid(inst, entries, v) {
      OneMoreVmid(seen, inst, entries, v);
    }
    hide VmidSeen;
  }

  lemma CountedAzs(t: Tally, t': Tally, entries: map<string, Entry>, seen: seq<Instance>, inst: Instance)
    requires CountsAzs(t, entries, seen) && AddsAz(t, t', entries, inst)
    ensures CountsAzs(t', entries, seen + [inst])
  {
    forall az ensures AzUsed(seen + [inst], az) <==> AzUsed(seen, az) || inst.az == az {
      OneMoreAz(seen, inst, az);
    }
    hide AzUsed;
  }

  lemma CountedStamps(t: Tally, t': Tally, entries: map<string, Entry>, seen: seq<Instance>, inst: Instance)
    requires CountsStamps(t, entries, seen) && AddsStamp(t, t', entries, inst)
    ensures CountsStamps(t', entries, seen + [inst])
  {
    var more := seen + [inst];
    assert forall az, s | HasStamp(inst, entries, az, s) :: az == inst.az;
    hide HasStamp;
    forall az, s ensures StampSeen(more, entries, az, s) <==> StampSeen(seen, entries, az, s) || HasStamp(inst, entries, az, s) {
      OneMoreStamp(seen, inst, entries, az, s);
    }
    hide StampSeen;
  }

  lemma CountedProblems(t: Tally, t': Tally, obs: Observation, entries: map<string, Entry>, expectStamped: bool,
      seen: seq<Instance>, inst: Instance)
    requires entries.Keys <= obs.clusters.Keys
    requires CountsProblems(t, obs, entries, expectStamped, seen) && AddsProblems(t, t', obs, entries, expectStamped, inst)
    ensures CountsProblems(t', obs, entries, expectStamped, seen + [inst])
  {
    hide LocationOk;
    hide BandOk;
    hide TagsOk;
    var more := seen + [inst];
    assert more[|seen|] == inst;
    assert forall i | 0 <= i < |seen| :: more[i] == seen[i];
  }

  /** The location problems of an instance whose CID parsed. */
  method LocationProblems(obs: Observation, entries: map<string, Entry>, i: nat) returns (problems: seq<nat>)
    requires entries.Keys <= obs.clusters.Keys && i < |obs.instances| && Placeable(obs.instances[i], entries)
    ensures problems == [] <==> LocationOk(obs, entries, obs.instances[i])
  {
    hide Parse;
    var inst := obs.instances[i];
    var vmid := PathId(Parse(inst.vmCid).value);
    problems := [];
    hide PathId;
    if !OnCluster(obs.clusters[inst.az], vmid) {
      problems := problems + [i];
    }
    if exists o | o in obs.clusters && o != inst.az :: OnCluster(obs.clusters[o], vmid) {
      problems := problems + [i];
    }
  }

  /** The tag problems of an instance whose CID parsed. */
  method TagProblems(obs: Observation, entries: map<string, Entry>, expectStamped: bool, i: nat) returns (problems: seq<nat>)
    requires entries.Keys <= obs.clusters.Keys && i < |obs.instances| && Placeable(obs.instances[i], entries)
    ensures problems == [] <==> TagsOk(obs, entries, obs.instances[i], expectStamped)
  {
    hide Parse;
    hide TagValues;
    hide OwnerValue;
    hide PathId;
    var inst := obs.instances[i];
    var cid := Parse(inst.vmCid).value;
    problems := [];
    if Stamped(cid) {
      var row := FirstRow(obs.clusters[inst.az].resources, PathId(cid));
      if row.Some? {
        var owner := OwnerValue(obs.directorUuid);
        if owner == "" || TagValues(row.value, OWNER_PREFIX) != [owner] {
          problems := problems + [i];
        }
        if TagValues(row.value, CLUSTER_PREFIX) != [cid.cluster] {
          problems := problems + [i];
        }
        if TagValues(row.value, CID_PREFIX) != [cid.token] {
          problems := problems + [i];
        }
      }
    } else if expectStamped {
      problems := problems + [i];
    }
  }

  /** An instance that cannot be placed is a location problem and nothing else. */
  lemma Unplaceable(obs: Observation, entries: map<string, Entry>, expectStamped: bool, inst: Instance)
    requires entries.Keys <= obs.clusters.Keys && !Placeable(inst, entries)
    ensures !LocationOk(obs, entries, inst) && BandOk(entries, inst) && TagsOk(obs, entries, inst, expectStamped)
    ensures forall az, s :: !HasStamp(inst, entries, az, s)
    ensures forall v :: !HasVmid(inst, entries, v)
  {
    hide Parse;
  }

  lemma StampAdded(t: Tally, t': Tally, entries: map<string, Entry>, inst: Instance, i: nat)
    requires Placeable(inst, entries) && t.stamps.Keys == entries.Keys
    requires var cid := Parse(inst.vmCid).value;
      if Stamped(cid) then
        && t'.stamps == t.stamps[inst.az := t.stamps[inst.az] + {cid.cluster}]
        && t'.unknownStamps == (if cid.cluster == UNKNOWN_CLUSTER then t.unknownStamps + [i] else t.unknownStamps)
      else t'.stamps == t.stamps && t'.unknownStamps == t.unknownStamps
    ensures AddsStamp(t, t', entries, inst)
  {
    hide Parse;
  }

  /** One turn of the loop over the instances. */
  method CheckInstance(t: Tally, obs: Observation, entries: map<string, Entry>, expectStamped: bool, i: nat)
    returns (t': Tally)
    requires entries.Keys <= obs.clusters.Keys && i < |obs.instances|
    requires t.perAz.Keys == t.stamps.Keys == entries.Keys
    ensures Adds(t, t', obs, entries, expectStamped, obs.instances[i])
  {
    hide Parse;
    hide PathId;
    hide LocationOk;
    hide TagsOk;
    hide HasStamp;
    var inst := obs.instances[i];
    t' := t;
    if inst.az !in entries {
      Unplaceable(obs, entries, expectStamped, inst);
      return t'.(vmCluster := t.vmCluster + [i]);
    }
    t' := t'.(perAz := t.perAz[inst.az := t.perAz[inst.az] + 1]);
    if Parse(inst.vmCid).None? {
      Unplaceable(obs, entries, expectStamped, inst);
      return t'.(vmCluster := t.vmCluster + [i]);
    }
    hide AddsStamp;
    var cid := Parse(inst.vmCid).value;
    var misplaced := LocationProblems(obs, entries, i);
    t' := t'.(vmids := t.vmids + {PathId(cid)}, vmCluster := t.vmCluster + misplaced);
    if !(entries[inst.az].lo <= cid.vmid <= entries[inst.az].hi) {
      t' := t'.(vmBand := t'.vmBand + [i]);
    }
    if Stamped(cid) {
      t' := t'.(stamps := t.stamps[inst.az := t.stamps[inst.az] + {cid.cluster}]);
      if cid.cluster == UNKNOWN_CLUSTER {
        t' := t'.(unknownStamps := t'.unknownStamps + [i]);
      }
    }
    var mistagged := TagProblems(obs, entries, expectStamped, i);
    t' := t'.(tags := t.tags + mistagged);
    StampAdded(t, t', entries, inst, i);
  }

  lemma CountsKeys(t: Tally, obs: Observation, entries: map<string, Entry>, expectStamped: bool, seen: seq<Instance>)
    requires entries.Keys <= obs.clusters.Keys && Counts(t, obs, entries, expectStamped, seen)
    ensures t.perAz.Keys == t.stamps.Keys == entries.Keys
  {
  }

  function NoTally(entries: map<string, Entry>): Tally {
    Tally(map az | az in entries :: 0, [], [], [], map az | az in entries :: {}, [], {})
  }

  lemma NothingCounted(obs: Observation, entries: map<string, Entry>, expectStamped: bool)
    requires entries.Keys <= obs.clusters.Keys
    ensures Counts(NoTally(entries), obs, entries, expectStamped, [])
  {
  }

  method CheckInstances(obs: Observation, entries: map<string, Entry>, expectStamped: bool) returns (t: Tally)
    requires entries.Keys <= obs.clusters.Keys
    ensures Counts(t, obs, entries, expectStamped, obs.instances)
  {
    hide Counts;
    hide Adds;
    hide NoTally;
    t := NoTally(entries);
    NothingCounted(obs, entries, expectStamped);
    var i := 0;
    assert obs.instances[..0] == [];
    while i < |obs.instances|
      invariant 0 <= i <= |obs.instances|
      invariant Counts(t, obs, entries, expectStamped, obs.instances[..i])
    {
      CountsKeys(t, obs, entries, expectStamped, obs.instances[..i]);
      var t' := CheckInstance(t, obs, entries, expectStamped, i);
      Counted(t, t', obs, entries, expectStamped, obs.instances[..i], obs.instances[i]);
      assert obs.instances[..i] + [obs.instances[i]] == obs.instances[..i + 1];
      t := t';
      i := i + 1;
    }
    assert obs.instances[..i] == obs.instances;
  }

  // ------------------------------------------------------------- strays

  /** The stray rows of one cluster. */
  method StrayRows(obs: Observation, entries: map<string, Entry>, az: string, vmids: set<string>) returns (stray: seq<string>)
    requires az in obs.clusters
    requires forall v :: v in vmids <==> VmidSeen(obs.instances, entries, v)
    requires OwnerValue(obs.directorUuid) != ""
    ensures stray == [] <==> forall row | row in obs.clusters[az].resources :: !IsStray(obs, entries, az, row)
  {
    hide VmidSeen;
    hide TagValues;
    hide OwnerValue;
    stray := [];
    var rows := obs.clusters[az].resources;
    var k := 0;
    while k < |rows|
      invariant 0 <= k <= |rows|
      invariant stray == [] <==> forall j | 0 <= j < k :: !IsStray(obs, entries, az, rows[j])
    {
      if rows[k].vmid !in vmids && rows[k].vmid !in Exempt(obs, az) {
        if OwnerValue(obs.directorUuid) in TagValues(rows[k], OWNER_PREFIX) {
          stray := stray + [rows[k].vmid];
        }
      }
      k := k + 1;
    }
    assert forall row | row in rows :: exists j :: 0 <= j < |rows| && rows[j] == row;
  }

  method Strays(obs: Observation, entries: map<string, Entry>, vmids: set<string>) returns (stray: seq<string>)
    requires forall v :: v in vmids <==> VmidSeen(obs.instances, entries, v)
    ensures stray == [] <==> NoStrays(obs, entries)
  {
    hide VmidSeen;
    stray := [];
    if OwnerValue(obs.directorUuid) == "" {
      return;
    }
    hide TagValues;
    hide OwnerValue;
    hide IsStray;
    var azs := Sorted(obs.clusters.Keys);
    var k := 0;
    while k < |azs|
      invariant 0 <= k <= |azs|
      invariant stray == [] <==>
        forall az, row | az in azs[..k] && az in obs.clusters && row in obs.clusters[az].resources :: !IsStray(obs, entries, az, row)
    {
      assert azs[..k + 1] == azs[..k] + [azs[k]];
      assert azs[k] in Elements(azs);
      var more := StrayRows(obs, entries, azs[k], vmids);
      stray := stray + more;
      k := k + 1;
    }
    assert azs[..k] == azs;
    assert forall az | az in obs.clusters :: az in azs by {
      forall az | az in obs.clusters ensures az in azs { assert az in Elements(azs); }
    }
  }

  // ------------------------------------------------------------- stamps

  /** No two keys share a value. */
  ghost predicate Injective(m: map<string, string>) {
    forall a, b | a in m && b in m && m[a] == m[b] :: a == b
  }

  /** A map has as many values as keys exactly when no two keys share one. */
  lemma {:induction false} ValuesIff(m: map<string, string>)
    ensures |m.Values| <= |m|
    ensures |m.Values| == |m| <==> Injective(m)
    decreases |m|
  {
    if m == map[] {
      assert m.Values == {};
    } else {
      var k :| k in m;
      var rest := m - {k};
      ValuesIff(rest);
      assert m.Keys == rest.Keys + {k};
      assert m.Values == rest.Values + {m[k]} by {
        forall v | v in m.Values ensures v in rest.Values + {m[k]} {
          var a :| a in m && m[a] == v;
          assert a != k ==> a in rest && rest[a] == v;
        }
      }
      if m[k] in rest.Values {
        var a :| a in rest && rest[a] == m[k];
        assert rest.Values + {m[k]} == rest.Values;
      } else {
        assert Injective(rest) <==> Injective(m) by {
          assert forall a | a in rest :: rest[a] in rest.Values;
          assert Injective(m) ==> forall a, b | a in rest && b in rest && rest[a] == rest[b] :: a in m && b in m && m[a] == m[b];
        }
      }
    }
  }

  /** An AZ's one stamp. */
  function OnlyStamp(s: set<string>): (r: string)
    requires |s| == 1
    ensures s == {r}
  {
    assert Elements(Sorted(s)) == s;
    assert Sorted(s) != [] by { if Sorted(s) == [] { NoElements(Sorted(s)); } }
    OneElement(s, Sorted(s)[0]);
    Sorted(s)[0]
  }

  lemma OneElement(s: set<string>, x: string)
    requires |s| == 1 && x in s
    ensures s == {x}
  {
    assert |s - {x}| == 0;
  }

  lemma TwoElements(s: set<string>, x: string, y: string)
    requires x in s && y in s && x != y
    ensures |s| > 1
  {
    assert |s - {x}| >= 1 by { assert y in s - {x}; }
  }

  /** How many AZs hold VMs with more than one cluster stamp. */
  method CrowdedAzs(stamps: map<string, set<string>>) returns (n: nat)
    ensures n == 0 <==> forall az | az in stamps :: |stamps[az]| <= 1
  {
    n := 0;
    var azs := Sorted(stamps.Keys);
    assert Elements(azs) == stamps.Keys;
    assert forall az | az in stamps :: az in azs;
    assert forall k | 0 <= k < |azs| :: azs[k] in stamps by {
      forall k | 0 <= k < |azs| ensures azs[k] in stamps { assert azs[k] in Elements(azs); }
    }
    hide Sorted;
    var k := 0;
    while k < |azs|
      invariant 0 <= k <= |azs|
      invariant n == 0 <==> forall j | 0 <= j < k :: |stamps[azs[j]]| <= 1
    {
      if |stamps[azs[k]]| > 1 {
        n := n + 1;
      }
      k := k + 1;
    }
    assert (forall az | az in stamps :: |stamps[az]| <= 1) <==> forall j | 0 <= j < |azs| :: |stamps[azs[j]]| <= 1 by {
      if forall j | 0 <= j < |azs| :: |stamps[azs[j]]| <= 1 {
        forall az | az in stamps ensures |stamps[az]| <= 1 {
          var j :| 0 <= j < |azs| && azs[j] == az;
        }
      }
    }
  }

  method CheckStamps(t: Tally, entries: map<string, Entry>, expectStamped: bool, ghost obs: Observation) returns (ok: bool)
    requires CountsStamps(t, entries, obs.instances)
    ensures ok <==> StampsOk(obs, entries, expectStamped)
  {
    var crowded := CrowdedAzs(t.stamps);
    var problems := |t.unknownStamps| + crowded;
    var known := Known(t.stamps);
    if |known| > 1 && |known.Values| < |known| {
      problems := problems + 1;
    }
    if known == map[] && expectStamped {
      problems := problems + 1;
    }
    ValuesIff(known);
    FewAreInjective(known);
    StampsMean(t, entries, obs, expectStamped);
    hide Injective;
    hide StampsOk;
    hide Known;
    hide CountsStamps;
    ok := problems == 0;
  }

  /** The AZs with exactly one stamp. */
  function Known(stamps: map<string, set<string>>): map<string, string> {
    map az | az in stamps && |stamps[az]| == 1 :: OnlyStamp(stamps[az])
  }

  lemma FewAreInjective(m: map<string, string>)
    ensures |m| <= 1 ==> Injective(m)
  {
    if |m| <= 1 {
      forall a, b | a in m && b in m ensures a == b {
        if a != b { TwoElements(m.Keys, a, b); }
      }
    }
  }

  /** The stamps an observation shows, as a relation between AZs and stamps. */
  ghost predicate Shows(t: Tally, az: string, s: string) { az in t.stamps && s in t.stamps[az] }

  lemma StampsMean(t: Tally, entries: map<string, Entry>, obs: Observation, expectStamped: bool)
    requires CountsStamps(t, entries, obs.instances)
    ensures StampsOk(obs, entries, expectStamped)
       <==> && t.unknownStamps == [] && (forall az | az in t.stamps :: |t.stamps[az]| <= 1)
            && Injective(Known(t.stamps)) && (expectStamped ==> Known(t.stamps) != map[])
  {
    ShowsMeans(t, entries, obs.instances);
    hide StampSeen;
    var single := forall az | az in t.stamps :: |t.stamps[az]| <= 1;
    assert single <==> forall az, s, u | Shows(t, az, s) && Shows(t, az, u) :: s == u by { OneStampAzs(t.stamps); }
    if single { KnownMeans(t); }
    hide Known;
    hide Injective;
    hide Shows;
  }

  lemma ShowsMeans(t: Tally, entries: map<string, Entry>, seen: seq<Instance>)
    requires CountsStamps(t, entries, seen)
    ensures forall az, s :: Shows(t, az, s) <==> StampSeen(seen, entries, az, s)
  {
    assert forall az, s | StampSeen(seen, entries, az, s) :: az in entries;
    hide StampSeen;
  }

  lemma KnownMeans(t: Tally)
    requires forall az | az in t.stamps :: |t.stamps[az]| <= 1
    ensures Injective(Known(t.stamps)) <==> forall a, b, s | Shows(t, a, s) && Shows(t, b, s) :: a == b
    ensures Known(t.stamps) != map[] <==> exists az, s :: Shows(t, az, s)
  {
    KnownAre(t.stamps);
    var known := Known(t.stamps);
    hide Known;
    assert forall az | az in known :: Shows(t, az, known[az]);
    if known != map[] {
      var az :| az in known;
      assert Shows(t, az, known[az]);
    }
  }

  lemma KnownAre(stamps: map<string, set<string>>)
    requires forall az | az in stamps :: |stamps[az]| <= 1
    ensures forall az :: az in Known(stamps) <==> az in stamps && stamps[az] != {}
    ensures forall az | az in Known(stamps) :: stamps[az] == {Known(stamps)[az]}
  {
    forall az | az in stamps && stamps[az] != {} ensures |stamps[az]| == 1 {
    }
  }

  lemma OneStampAzs(stamps: map<string, set<string>>)
    ensures (forall az | az in stamps :: |stamps[az]| <= 1)
       <==> forall az, x, y | az in stamps && x in stamps[az] && y in stamps[az] :: x == y
  {
    if forall az, x, y | az in stamps && x in stamps[az] && y in stamps[az] :: x == y {
      forall az | az in stamps ensures |stamps[az]| <= 1 {
        if x :| x in stamps[az] {
          assert stamps[az] == {x};
        }
      }
    }
    forall az, x, y | az in stamps && x in stamps[az] && y in stamps[az] && x != y ensures |stamps[az]| > 1 {
      TwoElements(stamps[az], x, y);
    }
  }

  // ------------------------------------------------------------- all together

  /** Enough AZs in use need enough instances, so the length comparison in the
      finding adds nothing. */
  lemma {:induction false} EnoughInstances(instances: seq<Instance>, azs: set<string>)
    requires forall az | az in azs :: AzUsed(instances, az)
    ensures |instances| >= |azs|
    decreases |instances|
  {
    if instances == [] {
      assert forall az :: !AzUsed(instances, az);
      assert azs == {};
    } else {
      var last := instances[|instances| - 1];
      var front := instances[..|instances| - 1];
      assert instances == front + [last];
      forall az | az in azs - {last.az} ensures AzUsed(front, az) {
        OneMoreAz(front, last, az);
      }
      EnoughInstances(front, azs - {last.az});
      assert |azs| <= |azs - {last.az}| + 1;
    }
  }

  lemma Missing(wanted: set<string>, have: set<string>)
    ensures wanted - have == {} <==> wanted <= have
  {
    forall az | az in wanted ensures az in have || az in wanted - have {
    }
  }

  /** check_placement */
  method CheckPlacement(obs: Observation, entries: map<string, Entry>, expectStamped: bool) returns (r: Report)
    ensures r == NoInstances <==> obs.instances == []
    ensures r == Unread <==> obs.instances != [] && !Readable(obs, entries)
    ensures r == Unread <==> obs.instances != [] && ((exists az | az in obs.clusters :: obs.clusters[az].error != "")
                                                     || (exists az | az in entries :: az !in obs.clusters))
    ensures Readable(obs, entries) ==> Reports(r, obs, entries, expectStamped)
    ensures r != NoInstances && r != Unread ==> PlacementFields.Means(r, obs, entries, expectStamped)
    ensures expectStamped ==> (AllOk(r) <==> Readable(obs, entries) && Spanned(obs, entries))
  {
    hide Spanned;
    if obs.instances == [] {
      return NoInstances;
    }
    var unread := exists az | az in obs.clusters :: obs.clusters[az].error != "";
    if unread || entries.Keys - obs.clusters.Keys != {} {
      Missing(entries.Keys, obs.clusters.Keys);
      return Unread;
    }
    Missing(entries.Keys, obs.clusters.Keys);
    r := JudgePlacement(obs, entries, expectStamped);
    hide Reports;
    hide PlacementFields.Means;
    PlacementFields.MeansIff(r, obs, entries, expectStamped);
    if expectStamped {
      PlacementIff(obs, entries, r);
    }
  }

  method JudgePlacement(obs: Observation, entries: map<string, Entry>, expectStamped: bool) returns (r: Report)
    requires Readable(obs, entries)
    ensures Reports(r, obs, entries, expectStamped)
  {
    hide Reports;
    hide CountsProblems;
    hide NoStrays;
    hide StampsOk;
    hide VmidSeen;
    hide AzUsed;
    hide StampSeen;
    var t := CheckInstances(obs, entries, expectStamped);
    var spans := (forall az | az in entries :: t.perAz[az] != 0) && |obs.instances| >= |entries|;
    var stray := Strays(obs, entries, t.vmids);
    var stamps := CheckStamps(t, entries, expectStamped, obs);
    r := Findings(spans, t.vmCluster == [], stray == [], t.vmBand == [], t.tags == [], stamps);
    SpansIff(t, obs, entries);
    Reported(r, t, obs, entries, expectStamped);
  }

  lemma Reported(r: Report, t: Tally, obs: Observation, entries: map<string, Entry>, expectStamped: bool)
    requires Readable(obs, entries) && CountsProblems(t, obs, entries, expectStamped, obs.instances)
    requires r.Findings? && r.vmCluster == (t.vmCluster == []) && r.vmBand == (t.vmBand == []) && r.tags == (t.tags == [])
    requires r.spansAzs <==> forall az | az in entries :: AzUsed(obs.instances, az)
    requires r.strays <==> NoStrays(obs, entries)
    requires r.stamps <==> StampsOk(obs, entries, expectStamped)
    ensures Reports(r, obs, entries, expectStamped)
  {
    hide AzUsed;
    hide NoStrays;
    hide StampsOk;
    hide LocationOk;
    hide TagsOk;
    hide BandOk;
  }

  lemma SpansIff(t: Tally, obs: Observation, entries: map<string, Entry>)
    requires CountsAzs(t, entries, obs.instances)
    ensures (forall az | az in entries :: AzUsed(obs.instances, az))
       <==> (forall az | az in entries :: t.perAz[az] != 0) && |obs.instances| >= |entries|
  {
    if forall az | az in entries :: AzUsed(obs.instances, az) {
      EnoughInstances(obs.instances, entries.Keys);
    }
    hide AzUsed;
  }
}
