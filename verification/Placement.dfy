/** Where every instance's VM sits across the clusters of a deployment, and how the
    CPI tagged it (scripts/_spanning.py): what each finding says, and what the
    findings say together. */
module Placement {
  import opened Text
  import opened VmCid

  const OWNER_PREFIX := "bosh-owner--"
  const CLUSTER_PREFIX := "bosh-cluster--"
  const CID_PREFIX := "bosh-cid--"

  datatype Row = Row(vmid: string, tags: string)

  datatype Cluster = Cluster(resources: seq<Row>, error: string)

  datatype Instance = Instance(az: string, vmCid: string)

  /** The band of VMIDs a cpi-config entry may allocate. */
  datatype Entry = Entry(lo: int, hi: int)

  datatype Observation = Observation(
    directorUuid: string,
    instances: seq<Instance>,
    clusters: map<string, Cluster>,
    exempt: map<string, set<string>>)

  // ------------------------------------------------------------------ tags

  predicate IsTagChar(c: char) { IsDigit(c) || 'a' <= c <= 'z' || 'A' <= c <= 'Z' || c == '-' }

  function Lower(c: char): char {
    if 'A' <= c <= 'Z' then (c as int + 32) as char else c
  }

  /** Characters outside [A-Za-z0-9-] become "-", letters become lower case. */
  function CleanTag(s: string): (r: string)
    ensures |r| == |s|
  {
    if s == [] then [] else [if IsTagChar(s[0]) then Lower(s[0]) else '-'] + CleanTag(s[1..])
  }

  function TrimDashes(s: string): string {
    if s != [] && s[0] == '-' then TrimDashes(s[1..])
    else if s != [] && s[|s| - 1] == '-' then TrimDashes(s[..|s| - 1])
    else s
  }

  /** The value of the Director's owner tag, or "" when its UUID gives none. */
  function OwnerValue(uuid: string): string { TrimDashes(CleanTag(uuid)) }

  predicate IsTagBreak(c: char) { c == ';' || c == ',' || IsSpace(c) }

  /** The runs of characters between tag breaks; `word` is the run being read. */
  function TagWords(s: string, word: string): seq<string>
    decreases |s|
  {
    if s == [] then (if word == [] then [] else [word])
    else if IsTagBreak(s[0]) then (if word == [] then [] else [word]) + TagWords(s[1..], [])
    else TagWords(s[1..], word + [s[0]])
  }

  function TagList(raw: string): seq<string> { TagWords(raw, []) }

  predicate HasPrefix(t: string, prefix: string) { |t| > |prefix| && t[..|prefix|] == prefix }

  function TagSet(row: Row, prefix: string): set<string> {
    var tags := TagList(row.tags);
    set t | t in tags && HasPrefix(t, prefix) :: t[|prefix|..]
  }

  /** tag_values: the distinct values of a row's tags with a prefix, in order. */
  function TagValues(row: Row, prefix: string): seq<string> { Sorted(TagSet(row, prefix)) }

  // ------------------------------------------------------- one instance

  predicate OnCluster(c: Cluster, vmid: string) { exists r | r in c.resources :: r.vmid == vmid }

  /** The first row of a VMID. */
  function FirstRow(rows: seq<Row>, vmid: string): (r: Option<Row>)
    ensures r.None? <==> forall x | x in rows :: x.vmid != vmid
    ensures r.Some? ==> r.value in rows && r.value.vmid == vmid
  {
    if rows == [] then None
    else if rows[0].vmid == vmid then Some(rows[0])
    else FirstRow(rows[1..], vmid)
  }

  /** The instance is in a configured AZ and its CID parses. */
  predicate Placeable(inst: Instance, entries: map<string, Entry>) {
    inst.az in entries && Parse(inst.vmCid).Some?
  }

  /** The VM is on its AZ's cluster and on no other. */
  predicate LocationOk(obs: Observation, entries: map<string, Entry>, inst: Instance)
    requires entries.Keys <= obs.clusters.Keys
  {
    && Placeable(inst, entries)
    && OnCluster(obs.clusters[inst.az], PathId(Parse(inst.vmCid).value))
    && forall o | o in obs.clusters && o != inst.az :: !OnCluster(obs.clusters[o], PathId(Parse(inst.vmCid).value))
  }

  predicate BandOk(entries: map<string, Entry>, inst: Instance) {
    Placeable(inst, entries) ==> entries[inst.az].lo <= Parse(inst.vmCid).value.vmid <= entries[inst.az].hi
  }

  /** The row carries exactly this owner, this cluster and this token. */
  predicate TaggedAs(row: Row, owner: string, cid: Cid) {
    && owner != ""
    && TagValues(row, OWNER_PREFIX) == [owner]
    && TagValues(row, CLUSTER_PREFIX) == [cid.cluster]
    && TagValues(row, CID_PREFIX) == [cid.token]
  }

  predicate TagsOk(obs: Observation, entries: map<string, Entry>, inst: Instance, expectStamped: bool)
    requires entries.Keys <= obs.clusters.Keys
  {
    Placeable(inst, entries) ==>
      var cid := Parse(inst.vmCid).value;
      if Stamped(cid) then
        var row := FirstRow(obs.clusters[inst.az].resources, PathId(cid));
        row.Some? ==> TaggedAs(row.value, OwnerValue(obs.directorUuid), cid)
      else !expectStamped
  }

  // ------------------------------------------------------------- findings

  /** Some placeable instance of the AZ carries this cluster stamp. */
  predicate StampSeen(instances: seq<Instance>, entries: map<string, Entry>, az: string, stamp: string) {
    exists i | 0 <= i < |instances| :: HasStamp(instances[i], entries, az, stamp)
  }

  predicate HasStamp(inst: Instance, entries: map<string, Entry>, az: string, stamp: string) {
    inst.az == az && Placeable(inst, entries) && Stamped(Parse(inst.vmCid).value) && StampOf(inst) == stamp
  }

  /** The instance's cluster stamp, or "" when its CID does not parse. */
  function StampOf(inst: Instance): string {
    match Parse(inst.vmCid)
    case None => ""
    case Some(cid) => cid.cluster
  }

  predicate VmidSeen(instances: seq<Instance>, entries: map<string, Entry>, vmid: string) {
    exists i | 0 <= i < |instances| :: HasVmid(instances[i], entries, vmid)
  }

  predicate HasVmid(inst: Instance, entries: map<string, Entry>, vmid: string) {
    Placeable(inst, entries) && PathId(Parse(inst.vmCid).value) == vmid
  }

  predicate AzUsed(instances: seq<Instance>, az: string) { exists i | 0 <= i < |instances| :: instances[i].az == az }

  function Exempt(obs: Observation, az: string): set<string> { if az in obs.exempt then obs.exempt[az] else {} }

  /** The row carries the Director's owner tag and no instance accounts for it. */
  predicate IsStray(obs: Observation, entries: map<string, Entry>, az: string, row: Row) {
    && OwnerValue(obs.directorUuid) != ""
    && !VmidSeen(obs.instances, entries, row.vmid)
    && row.vmid !in Exempt(obs, az)
    && OwnerValue(obs.directorUuid) in TagValues(row, OWNER_PREFIX)
  }

  predicate NoStrays(obs: Observation, entries: map<string, Entry>) {
    forall az, row | az in obs.clusters && row in obs.clusters[az].resources :: !IsStray(obs, entries, az, row)
  }

  /** No stamp is unknown, no AZ has two, and no two AZs with one stamp each share
      it; where stamps are expected, some AZ has exactly one. */
  ghost predicate StampsOk(obs: Observation, entries: map<string, Entry>, expectStamped: bool) {
    var seen := obs.instances;
    && (forall az :: !StampSeen(seen, entries, az, UNKNOWN_CLUSTER))
    && (forall az, s, t | StampSeen(seen, entries, az, s) && StampSeen(seen, entries, az, t) :: s == t)
    && (forall a, b, s | StampSeen(seen, entries, a, s) && StampSeen(seen, entries, b, s) :: a == b)
    && (expectStamped ==> exists az, s :: StampSeen(seen, entries, az, s))
  }

  datatype Report =
    | NoInstances
    | Unread
    | Findings(spansAzs: bool, vmCluster: bool, strays: bool, vmBand: bool, tags: bool, stamps: bool)

  /** Every modelled finding held. */
  predicate AllOk(r: Report) {
    r.Findings? && r.spansAzs && r.vmCluster && r.strays && r.vmBand && r.tags && r.stamps
  }

  /** The observation can be judged at all. */
  predicate Readable(obs: Observation, entries: map<string, Entry>) {
    && obs.instances != []
    && entries.Keys <= obs.clusters.Keys
    && forall az | az in obs.clusters :: obs.clusters[az].error == ""
  }

  /** What the report of a readable observation says. */
  ghost predicate Reports(r: Report, obs: Observation, entries: map<string, Entry>, expectStamped: bool)
    requires Readable(obs, entries)
  {
    && r.Findings?
    && (r.spansAzs <==> forall az | az in entries :: AzUsed(obs.instances, az))
    && (r.vmCluster <==> forall i | 0 <= i < |obs.instances| :: LocationOk(obs, entries, obs.instances[i]))
    && (r.strays <==> NoStrays(obs, entries))
    && (r.vmBand <==> forall i | 0 <= i < |obs.instances| :: BandOk(entries, obs.instances[i]))
    && (r.tags <==> forall i | 0 <= i < |obs.instances| :: TagsOk(obs, entries, obs.instances[i], expectStamped))
    && (r.stamps <==> StampsOk(obs, entries, expectStamped))
  }

  // ---------------------------------------------------- the global statement

  /** The instance's VM is where its CID says, in its band, known to one cluster
      only, and tagged with this Director, that cluster and that token. */
  predicate WellPlaced(obs: Observation, entries: map<string, Entry>, inst: Instance) {
    && inst.az in entries && inst.az in obs.clusters
    && Parse(inst.vmCid).Some?
    && var cid := Parse(inst.vmCid).value;
    && KnownCluster(cid)
    && entries[inst.az].lo <= cid.vmid <= entries[inst.az].hi
    && (forall az | az in obs.clusters :: OnCluster(obs.clusters[az], PathId(cid)) <==> az == inst.az)
    && var row := FirstRow(obs.clusters[inst.az].resources, PathId(cid));
    && row.Some? && TaggedAs(row.value, OwnerValue(obs.directorUuid), cid)
  }

  /** A row with the Director's owner tag is exempt on its cluster or the VM of an
      instance in that cluster's AZ. */
  predicate Accounted(obs: Observation, az: string, row: Row) {
    OwnerValue(obs.directorUuid) in TagValues(row, OWNER_PREFIX) ==>
      row.vmid in Exempt(obs, az) || exists i | 0 <= i < |obs.instances| :: IsVmOf(obs.instances[i], az, row.vmid)
  }

  predicate IsVmOf(inst: Instance, az: string, vmid: string) {
    inst.az == az && Parse(inst.vmCid).Some? && PathId(Parse(inst.vmCid).value) == vmid
  }

  /** Two instances have the same cluster stamp exactly when they are in one AZ. */
  predicate StampsTellAzs(instances: seq<Instance>) {
    forall i, j | 0 <= i < |instances| && 0 <= j < |instances| ::
      instances[i].az == instances[j].az <==> StampOf(instances[i]) == StampOf(instances[j])
  }

  predicate Spanned(obs: Observation, entries: map<string, Entry>) {
    && (forall az | az in entries :: AzUsed(obs.instances, az))
    && (forall i | 0 <= i < |obs.instances| :: WellPlaced(obs, entries, obs.instances[i]))
    && StampsTellAzs(obs.instances)
    && (forall az, row | az in obs.clusters && row in obs.clusters[az].resources :: Accounted(obs, az, row))
  }

  // ------------------------------------------------------------- the proofs

  /** The findings of one instance together say that it is well placed, given that
      its stamp is known. */
  lemma InstanceIff(obs: Observation, entries: map<string, Entry>, inst: Instance)
    requires entries.Keys <= obs.clusters.Keys
    ensures WellPlaced(obs, entries, inst)
       <==> LocationOk(obs, entries, inst) && BandOk(entries, inst) && TagsOk(obs, entries, inst, true)
            && StampOf(inst) != UNKNOWN_CLUSTER
  {
    hide Parse;
    hide TaggedAs;
    hide OwnerValue;
    hide PathId;
  }

  /** Every instance has a known stamp of its own. */
  predicate AllStamped(instances: seq<Instance>, entries: map<string, Entry>) {
    forall i | 0 <= i < |instances| :: KnownStamp(instances[i], entries)
  }

  predicate KnownStamp(inst: Instance, entries: map<string, Entry>) {
    HasStamp(inst, entries, inst.az, StampOf(inst)) && StampOf(inst) != UNKNOWN_CLUSTER
  }

  lemma WellPlacedStamped(obs: Observation, entries: map<string, Entry>, inst: Instance)
    requires WellPlaced(obs, entries, inst)
    ensures KnownStamp(inst, entries)
  {
    hide Parse;
    hide OwnerValue;
    hide TagValues;
  }

  /** When every instance has a known stamp, the stamp finding holds exactly when
      stamps tell AZs apart. */
  lemma StampsIff(obs: Observation, entries: map<string, Entry>)
    requires obs.instances != [] && AllStamped(obs.instances, entries)
    ensures StampsOk(obs, entries, true) <==> StampsTellAzs(obs.instances)
  {
    hide StampOf;
    hide Placeable;
    hide Parse;
    var seen := obs.instances;
    forall i | 0 <= i < |seen| ensures StampSeen(seen, entries, seen[i].az, StampOf(seen[i])) {
      assert KnownStamp(seen[i], entries);
    }
    if StampsTellAzs(seen) {
      forall az, s | StampSeen(seen, entries, az, s) ensures s != UNKNOWN_CLUSTER {
        var i := Bearer(seen, entries, az, s);
        assert KnownStamp(seen[i], entries);
      }
      forall a, b, s, t | StampSeen(seen, entries, a, s) && StampSeen(seen, entries, b, t) ensures a == b <==> s == t {
        var i := Bearer(seen, entries, a, s);
        var j := Bearer(seen, entries, b, t);
      }
      assert StampSeen(seen, entries, seen[0].az, StampOf(seen[0]));
      hide StampSeen;
    }
  }

  lemma Bearer(instances: seq<Instance>, entries: map<string, Entry>, az: string, stamp: string) returns (i: nat)
    requires StampSeen(instances, entries, az, stamp)
    ensures i < |instances| && instances[i].az == az && StampOf(instances[i]) == stamp
  {
    i :| 0 <= i < |instances| && HasStamp(instances[i], entries, az, stamp);
  }

  /** If every finding holds with stamped CIDs expected, the deployment is spanned
      as intended. */
  lemma FindingsImplySpanned(obs: Observation, entries: map<string, Entry>, r: Report)
    requires Readable(obs, entries) && Reports(r, obs, entries, true) && AllOk(r)
    ensures Spanned(obs, entries)
  {
    forall i | 0 <= i < |obs.instances|
      ensures WellPlaced(obs, entries, obs.instances[i]) && KnownStamp(obs.instances[i], entries)
    {
      FindingsPlace(obs, entries, obs.instances[i], i);
    }
    hide Parse;
    hide OwnerValue;
    hide TagValues;
    hide WellPlaced;
    hide KnownStamp;
    hide StampsOk;
    hide StampsTellAzs;
    StampsIff(obs, entries);
    forall az, row | az in obs.clusters && row in obs.clusters[az].resources ensures Accounted(obs, az, row) {
      RowAccounted(obs, entries, az, row);
    }
    hide Accounted;
    hide IsStray;
    hide LocationOk;
    hide TagsOk;
    hide BandOk;
  }

  lemma FindingsPlace(obs: Observation, entries: map<string, Entry>, inst: Instance, i: nat)
    requires i < |obs.instances| && inst == obs.instances[i]
    requires entries.Keys <= obs.clusters.Keys && StampsOk(obs, entries, true)
    requires LocationOk(obs, entries, inst) && BandOk(entries, inst) && TagsOk(obs, entries, inst, true)
    ensures WellPlaced(obs, entries, inst) && KnownStamp(inst, entries)
  {
    hide Parse;
    hide OwnerValue;
    hide TagValues;
    assert HasStamp(inst, entries, inst.az, StampOf(inst));
    assert StampSeen(obs.instances, entries, inst.az, StampOf(inst));
    InstanceIff(obs, entries, inst);
  }

  /** The stray check asks for an instance in any AZ; the location check makes it
      one of the same AZ. */
  lemma RowAccounted(obs: Observation, entries: map<string, Entry>, az: string, row: Row)
    requires az in obs.clusters && row in obs.clusters[az].resources
    requires !IsStray(obs, entries, az, row)
    requires obs.instances != [] && forall i | 0 <= i < |obs.instances| :: WellPlaced(obs, entries, obs.instances[i])
    ensures Accounted(obs, az, row)
  {
    hide Parse;
    hide OwnerValue;
    hide TagValues;
    assert WellPlaced(obs, entries, obs.instances[0]);
    if VmidSeen(obs.instances, entries, row.vmid) {
      var i :| 0 <= i < |obs.instances| && HasVmid(obs.instances[i], entries, row.vmid);
      assert WellPlaced(obs, entries, obs.instances[i]);
      assert OnCluster(obs.clusters[az], row.vmid);
      assert IsVmOf(obs.instances[i], az, row.vmid);
    }
  }

  /** A spanned deployment passes every finding. */
  lemma SpannedPasses(obs: Observation, entries: map<string, Entry>, r: Report)
    requires Readable(obs, entries) && Reports(r, obs, entries, true) && Spanned(obs, entries)
    ensures AllOk(r)
  {
    hide Parse;
    hide OwnerValue;
    hide TagValues;
    forall i | 0 <= i < |obs.instances|
      ensures LocationOk(obs, entries, obs.instances[i]) && BandOk(entries, obs.instances[i])
      ensures TagsOk(obs, entries, obs.instances[i], true) && KnownStamp(obs.instances[i], entries)
    {
      WellPlacedStamped(obs, entries, obs.instances[i]);
      InstanceIff(obs, entries, obs.instances[i]);
    }
    forall az, row | az in obs.clusters && row in obs.clusters[az].resources ensures !IsStray(obs, entries, az, row) {
      assert Accounted(obs, az, row);
      if i :| 0 <= i < |obs.instances| && IsVmOf(obs.instances[i], az, row.vmid) {
        assert WellPlaced(obs, entries, obs.instances[i]);
        assert HasVmid(obs.instances[i], entries, row.vmid);
      }
    }
    hide WellPlaced;
    hide StampsOk;
    hide StampsTellAzs;
    StampsIff(obs, entries);
  }

  /** With stamped CIDs expected, every finding holds exactly when the deployment
      is spanned as intended. */
  lemma PlacementIff(obs: Observation, entries: map<string, Entry>, r: Report)
    requires Readable(obs, entries) && Reports(r, obs, entries, true)
    ensures AllOk(r) <==> Spanned(obs, entries)
  {
    hide Spanned;
    hide Reports;
    if AllOk(r) { FindingsImplySpanned(obs, entries, r); }
    if Spanned(obs, entries) { SpannedPasses(obs, entries, r); }
  }

  /** Instances of different AZs share neither a VM nor a cluster stamp. */
  lemma AzsAreDisjoint(obs: Observation, entries: map<string, Entry>, i: nat, j: nat)
    requires Spanned(obs, entries)
    requires i < |obs.instances| && j < |obs.instances| && obs.instances[i].az != obs.instances[j].az
    ensures Parse(obs.instances[i].vmCid).value.vmid != Parse(obs.instances[j].vmCid).value.vmid
    ensures StampOf(obs.instances[i]) != StampOf(obs.instances[j])
  {
    hide Parse;
    hide TaggedAs;
    assert WellPlaced(obs, entries, obs.instances[i]) && WellPlaced(obs, entries, obs.instances[j]);
    assert OnCluster(obs.clusters[obs.instances[j].az], PathId(Parse(obs.instances[j].vmCid).value));
  }
}
