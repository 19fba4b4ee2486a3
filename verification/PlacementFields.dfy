/** What the placement findings say, on the texts of the observation: the CID of an
    instance as digits and stamps, a row's tags as the runs of its tag text. */
module PlacementFields {
  import opened Text
  import opened VmCid
  import opened Placement
  import opened OwnerTag

  // -------------------------------------------------------------------- tags

  /** Positions i to j of the text are a whole tag: a run of characters without a
      semicolon, a comma or whitespace, with one of those or the text's end around it. */
  predicate TagAt(text: string, i: nat, j: nat, t: string) {
    && i < j <= |text| && text[i..j] == t
    && (forall k | i <= k < j :: !IsBreak(text[k]))
    && (i == 0 || IsBreak(text[i - 1])) && (j == |text| || IsBreak(text[j]))
  }

  predicate IsBreak(c: char) { c == ';' || c == ',' || IsSpace(c) }

  predicate HasTag(text: string, t: string) { exists i, j | 0 <= i < j <= |text| :: TagAt(text, i, j, t) }

  /** `v` is the one value of the row's tags that begin with the prefix. */
  ghost predicate OnlyValue(text: string, prefix: string, v: string) {
    forall u :: HasTag(text, prefix + u) && u != "" <==> u == v
  }

  lemma WholeWord(word: string, t: string)
    requires forall k | 0 <= k < |word| :: !IsBreak(word[k])
    ensures HasTag(word, t) <==> word != [] && t == word
  {
    if word != [] {
      assert word[0..|word|] == word;
      assert TagAt(word, 0, |word|, word);
    }
    if i, j :| 0 <= i < j <= |word| && TagAt(word, i, j, t) {
      assert i == 0 && j == |word|;
    }
  }

  /** A break ends the word before it. */
  lemma BreakSplits(word: string, c: char, rest: string, t: string)
    requires (forall k | 0 <= k < |word| :: !IsBreak(word[k])) && IsBreak(c)
    ensures HasTag(word + [c] + rest, t) <==> (word != [] && t == word) || HasTag(rest, t)
  {
    hide TagAt;
    hide IsBreak;
    var text, n := word + [c] + rest, |word|;
    if i, j :| 0 <= i < j <= |text| && TagAt(text, i, j, t) {
      TagBeforeOrAfter(word, c, rest, i, j, t);
    }
    if word != [] && t == word {
      TagBefore(word, c, rest);
    }
    if i, j :| 0 <= i < j <= |rest| && TagAt(rest, i, j, t) {
      TagAfter(word + [c], rest, i, j, t);
    }
  }

  lemma TagBefore(word: string, c: char, rest: string)
    requires word != [] && (forall k | 0 <= k < |word| :: !IsBreak(word[k])) && IsBreak(c)
    ensures TagAt(word + [c] + rest, 0, |word|, word)
  {
    hide IsBreak;
    var text := word + [c] + rest;
    assert text[0..|word|] == word;
    assert forall k | 0 <= k < |word| :: text[k] == word[k];
    assert text[|word|] == c;
  }

  lemma TagAfter(head: string, rest: string, i: nat, j: nat, t: string)
    requires head != [] && IsBreak(head[|head| - 1]) && TagAt(rest, i, j, t)
    ensures TagAt(head + rest, |head| + i, |head| + j, t)
  {
    hide IsBreak;
    var text, n := head + rest, |head|;
    assert forall k | 0 <= k < |rest| :: text[n + k] == rest[k];
    assert text[n - 1] == head[n - 1];
    assert text[n + i..n + j] == rest[i..j];
    forall k | n + i <= k < n + j ensures !IsBreak(text[k]) { assert text[k] == rest[k - n]; }
  }

  lemma TagBeforeOrAfter(word: string, c: char, rest: string, i: nat, j: nat, t: string)
    requires (forall k | 0 <= k < |word| :: !IsBreak(word[k])) && IsBreak(c)
    requires TagAt(word + [c] + rest, i, j, t)
    ensures (word != [] && t == word) || HasTag(rest, t)
  {
    hide IsBreak;
    var text, n := word + [c] + rest, |word|;
    assert forall k | 0 <= k < n :: text[k] == word[k];
    assert text[n] == c;
    if i <= n {
      assert j <= n;
      assert i == 0 && j == n;
      assert text[0..n] == word;
    } else {
      var a, b := i - n - 1, j - n - 1;
      assert forall k | 0 <= k < |rest| :: rest[k] == text[n + 1 + k];
      assert rest[a..b] == text[i..j];
      assert TagAt(rest, a, b, t);
    }
  }

  lemma {:induction false} WordsIff(s: string, word: string, t: string)
    requires forall k | 0 <= k < |word| :: !IsBreak(word[k])
    ensures t in TagWords(s, word) <==> HasTag(word + s, t)
    decreases |s|
  {
    hide HasTag;
    if s == [] {
      WholeWord(word, t);
      assert word + s == word;
    } else if IsTagBreak(s[0]) {
      WordsIff(s[1..], [], t);
      assert [] + s[1..] == s[1..];
      BreakSplits(word, s[0], s[1..], t);
      assert word + s == word + [s[0]] + s[1..];
    } else {
      WordsIff(s[1..], word + [s[0]], t);
      assert word + s == word + [s[0]] + s[1..];
    }
  }

  lemma TagsIff(row: Row, t: string)
    ensures t in TagList(row.tags) <==> HasTag(row.tags, t)
  {
    hide HasTag;
    WordsIff(row.tags, [], t);
    assert [] + row.tags == row.tags;
  }

  lemma TagValuesIff(row: Row, prefix: string, v: string)
    ensures v in TagValues(row, prefix) <==> v != "" && HasTag(row.tags, prefix + v)
  {
    hide HasTag;
    hide TagList;
    var tag := prefix + v;
    TagsIff(row, tag);
    assert tag[..|prefix|] == prefix && tag[|prefix|..] == v;
    if v in TagSet(row, prefix) {
      var t :| t in TagList(row.tags) && HasPrefix(t, prefix) && t[|prefix|..] == v;
      assert t == prefix + v;
    }
    if v != "" && tag in TagList(row.tags) {
      assert HasPrefix(tag, prefix);
    }
    assert v in Elements(Sorted(TagSet(row, prefix))) <==> v in TagSet(row, prefix);
    hide Sorted;
    hide TagSet;
  }

  /** The tag values are the one value exactly when no other tag has the prefix. */
  lemma OnlyIff(row: Row, prefix: string, v: string)
    ensures TagValues(row, prefix) == [v] <==> OnlyValue(row.tags, prefix, v)
  {
    hide HasTag;
    hide TagSet;
    var values := TagValues(row, prefix);
    assert Ascending(values);
    hide Sorted;
    forall u ensures u in values <==> u != "" && HasTag(row.tags, prefix + u) { TagValuesIff(row, prefix, u); }
    hide TagValues;
    if forall u :: u in values <==> u == v { JustOne(values, v); }
  }

  lemma JustOne(values: seq<string>, v: string)
    requires Ascending(values) && forall u :: u in values <==> u == v
    ensures values == [v]
  {
    assert v in values;
    if |values| > 1 {
      assert values[0] in values && values[1] in values;
      LessIrreflexive(v);
    }
  }

  // ------------------------------------------------------------ the owner tag

  /** Character by character: lower-case letters, digits and dashes stay, upper-case
      letters become lower-case ones, anything else a dash. */
  predicate CleanedTo(c: char, d: char) {
    if 'A' <= c <= 'Z' then d as int == c as int + 32
    else if 'a' <= c <= 'z' || '0' <= c <= '9' then d == c
    else d == '-'
  }

  /** The owner value is a middle part of the identifier, cleaned, that neither starts
      nor ends with a dash; what is cut off around it cleans to dashes only. */
  ghost predicate OwnerIs(uuid: string, o: string) {
    exists i, j | 0 <= i <= j <= |uuid| :: CleanPart(uuid, i, j, o)
  }

  predicate CleanPart(uuid: string, i: nat, j: nat, o: string) {
    && i <= j <= |uuid| && CleansTo(uuid[i..j], o)
    && (o == "" || (o[0] != '-' && o[|o| - 1] != '-'))
    && CleansAway(uuid[..i]) && CleansAway(uuid[j..])
  }

  predicate CleansTo(s: string, o: string) { |o| == |s| && forall k | 0 <= k < |s| :: CleanedTo(s[k], o[k]) }

  predicate CleansAway(s: string) { forall k | 0 <= k < |s| :: CleanedTo(s[k], '-') }

  lemma {:induction false} CleanAt(s: string, k: nat)
    requires k < |s|
    ensures CleanedTo(s[k], CleanTag(s)[k])
  {
    if k > 0 { CleanAt(s[1..], k - 1); }
  }

  lemma OwnerMeans(uuid: string)
    ensures OwnerIs(uuid, OwnerValue(uuid))
  {
    hide Core;
    hide CleanTag;
    hide TrimDashes;
    hide CleanPart;
    var a, b := CoreSplits(uuid);
    var core := Core(uuid);
    TagConcat(a + core, b);
    TagConcat(a, core);
    CleanDashy(a);
    CleanDashy(b);
    if core != [] { CleanEnds(core); }
    TrimsTo(CleanTag(a), CleanTag(core), CleanTag(b));
    PartCleans(a, core, b);
    assert CleanPart(uuid, |a|, |a| + |core|, OwnerValue(uuid));
  }

  lemma PartCleans(a: string, core: string, b: string)
    requires AllDashy(a) && AllDashy(b) && Trimmed(CleanTag(core))
    ensures CleanPart(a + core + b, |a|, |a| + |core|, CleanTag(core))
  {
    hide CleansTo;
    hide CleansAway;
    hide CleanTag;
    hide AllDashy;
    CoreCleans(core);
    DashyAway(a);
    DashyAway(b);
    var uuid := a + core + b;
    assert uuid[..|a|] == a && uuid[|a|..|a| + |core|] == core && uuid[|a| + |core|..] == b;
  }

  lemma CoreCleans(core: string)
    ensures CleansTo(core, CleanTag(core))
  {
    hide CleanedTo;
    forall k | 0 <= k < |core| ensures CleanedTo(core[k], CleanTag(core)[k]) { CleanAt(core, k); }
  }

  lemma DashyAway(s: string)
    requires AllDashy(s)
    ensures CleansAway(s)
  {
    hide CleanedTo;
    forall k | 0 <= k < |s| ensures CleanedTo(s[k], '-') { DashyCleans(s[k]); }
  }

  lemma DashyCleans(c: char)
    requires Dashy(c)
    ensures CleanedTo(c, '-')
  {
  }

  // --------------------------------------------------------------- instances

  predicate Stamp(v: string) { |v| == 8 && forall i | 0 <= i < 8 :: '0' <= v[i] <= '9' || 'a' <= v[i] <= 'f' }

  /** The text is VMID `n`, bare, or with a cluster stamp and a token after it. */
  predicate Spells(text: string, n: nat, cluster: string, token: string) {
    && 1 <= n <= 9223372036854775807
    && (|| (text == Decimal(n) && cluster == "" && token == "")
        || (text == Decimal(n) + "-" + cluster + "-" + token && Stamp(cluster) && Stamp(token)))
  }

  lemma SpellsIff(text: string, n: nat, cluster: string, token: string)
    ensures Spells(text, n, cluster, token) <==> Parse(text) == Some(Cid(n, cluster, token))
  {
    hide Parse;
    hide Decimal;
    var cid := Cid(n, cluster, token);
    if Spells(text, n, cluster, token) {
      assert VmCid.Valid(cid) && Print(cid) == text;
      ParsePrint(cid);
    }
    if Parse(text) == Some(cid) { PrintParse(text); }
  }

  predicate Holds(c: Cluster, vmid: string) { exists i | 0 <= i < |c.resources| :: c.resources[i].vmid == vmid }

  lemma HoldsIff(c: Cluster, vmid: string)
    ensures Holds(c, vmid) <==> OnCluster(c, vmid)
  {
    if OnCluster(c, vmid) {
      var r :| r in c.resources && r.vmid == vmid;
      var i :| 0 <= i < |c.resources| && c.resources[i] == r;
      assert c.resources[i].vmid == vmid;
    }
  }

  predicate FirstAt(rows: seq<Row>, i: nat, vmid: string) {
    i < |rows| && rows[i].vmid == vmid && forall j | 0 <= j < i :: rows[j].vmid != vmid
  }

  lemma {:induction false} FirstIff(rows: seq<Row>, vmid: string)
    ensures FirstRow(rows, vmid).Some? ==> exists i | 0 <= i < |rows| :: FirstAt(rows, i, vmid) && FirstRow(rows, vmid) == Some(rows[i])
    ensures forall i | 0 <= i < |rows| && FirstAt(rows, i, vmid) :: FirstRow(rows, vmid) == Some(rows[i])
  {
    if rows == [] {
    } else if rows[0].vmid == vmid {
      assert FirstAt(rows, 0, vmid);
      assert forall i | 0 < i < |rows| :: !FirstAt(rows, i, vmid);
    } else {
      var rest := rows[1..];
      FirstIff(rest, vmid);
      if FirstRow(rest, vmid).Some? {
        var i :| 0 <= i < |rest| && FirstAt(rest, i, vmid) && FirstRow(rest, vmid) == Some(rest[i]);
        assert FirstAt(rows, i + 1, vmid);
      }
      forall i | 0 <= i < |rows| && FirstAt(rows, i, vmid) ensures FirstRow(rows, vmid) == Some(rows[i]) {
        assert i > 0;
        assert forall j | 0 <= j < i - 1 :: rest[j] == rows[j + 1];
        assert FirstAt(rest, i - 1, vmid);
      }
    }
  }

  // ---------------------------------------------------------------- findings

  /** The instance is of a configured AZ, its CID is a VMID, and that VMID is on the
      AZ's cluster and on no other. */
  ghost predicate LocatedAs(obs: Observation, entries: map<string, Entry>, inst: Instance) {
    inst.az in entries && exists n: nat, cluster, token :: Spells(inst.vmCid, n, cluster, token) && OnlyOn(obs, inst.az, Decimal(n))
  }

  predicate OnlyOn(obs: Observation, az: string, vmid: string) {
    forall o | o in obs.clusters :: Holds(obs.clusters[o], vmid) <==> o == az
  }

  ghost predicate InBand(entries: map<string, Entry>, inst: Instance) {
    forall n: nat, cluster, token | Spells(inst.vmCid, n, cluster, token) && inst.az in entries ::
      entries[inst.az].lo <= n <= entries[inst.az].hi
  }

  /** A stamped CID's first row has just the owner, the cluster and the token of the
      CID as its tags; a bare CID is a problem where stamps are expected. */
  ghost predicate TaggedRight(obs: Observation, entries: map<string, Entry>, inst: Instance, expectStamped: bool) {
    forall n: nat, cluster, token | Spells(inst.vmCid, n, cluster, token) && inst.az in entries && inst.az in obs.clusters ::
      if cluster == "" then !expectStamped
      else forall i | 0 <= i < |obs.clusters[inst.az].resources| && FirstAt(obs.clusters[inst.az].resources, i, Decimal(n)) ::
        TagsAre(obs.clusters[inst.az].resources[i].tags, OwnerValue(obs.directorUuid), cluster, token)
  }

  ghost predicate TagsAre(tags: string, owner: string, cluster: string, token: string) {
    && owner != "" && OnlyValue(tags, "bosh-owner--", owner)
    && OnlyValue(tags, "bosh-cluster--", cluster) && OnlyValue(tags, "bosh-cid--", token)
  }

  lemma TagsAreIff(row: Row, owner: string, cid: Cid)
    ensures TaggedAs(row, owner, cid) <==> TagsAre(row.tags, owner, cid.cluster, cid.token)
  {
    hide TagValues;
    hide OnlyValue;
    OnlyIff(row, OWNER_PREFIX, owner);
    OnlyIff(row, CLUSTER_PREFIX, cid.cluster);
    OnlyIff(row, CID_PREFIX, cid.token);
  }

  lemma LocatedIff(obs: Observation, entries: map<string, Entry>, inst: Instance)
    requires entries.Keys <= obs.clusters.Keys
    ensures LocationOk(obs, entries, inst) <==> LocatedAs(obs, entries, inst)
  {
    hide Parse;
    hide Spells;
    hide OnlyOn;
    if Parse(inst.vmCid).Some? {
      var cid := Parse(inst.vmCid).value;
      SpellsIff(inst.vmCid, cid.vmid, cid.cluster, cid.token);
      if inst.az in entries { OnlyOnIff(obs, inst.az, PathId(cid)); }
    }
    if n: nat, cluster, token :| Spells(inst.vmCid, n, cluster, token) && OnlyOn(obs, inst.az, Decimal(n)) {
      SpellsIff(inst.vmCid, n, cluster, token);
    }
    hide OnCluster;
  }

  lemma OnlyOnIff(obs: Observation, az: string, vmid: string)
    requires az in obs.clusters
    ensures OnlyOn(obs, az, vmid) <==>
      OnCluster(obs.clusters[az], vmid) && forall o | o in obs.clusters && o != az :: !OnCluster(obs.clusters[o], vmid)
  {
    hide Holds;
    hide OnCluster;
    forall o | o in obs.clusters ensures Holds(obs.clusters[o], vmid) <==> OnCluster(obs.clusters[o], vmid) {
      HoldsIff(obs.clusters[o], vmid);
    }
  }

  lemma BandIff(entries: map<string, Entry>, inst: Instance)
    ensures BandOk(entries, inst) <==> InBand(entries, inst)
  {
    hide Parse;
    hide Spells;
    AllSpellings(inst.vmCid);
    if Parse(inst.vmCid).Some? {
      var cid := Parse(inst.vmCid).value;
      assert Spells(inst.vmCid, cid.vmid, cid.cluster, cid.token);
    }
  }

  lemma AllSpellings(text: string)
    ensures forall n: nat, cluster, token :: Spells(text, n, cluster, token) <==> Parse(text) == Some(Cid(n, cluster, token))
  {
    hide Parse;
    hide Spells;
    forall n: nat, cluster, token ensures Spells(text, n, cluster, token) <==> Parse(text) == Some(Cid(n, cluster, token)) {
      SpellsIff(text, n, cluster, token);
    }
  }

  lemma TaggedIff(obs: Observation, entries: map<string, Entry>, inst: Instance, expectStamped: bool)
    requires entries.Keys <= obs.clusters.Keys
    ensures TagsOk(obs, entries, inst, expectStamped) <==> TaggedRight(obs, entries, inst, expectStamped)
  {
    hide Parse;
    hide Spells;
    hide TaggedAs;
    hide TagsAre;
    hide FirstAt;
    hide OwnerValue;
    hide FirstRow;
    hide Decimal;
    AllSpellings(inst.vmCid);
    if inst.az in entries && Parse(inst.vmCid).Some? {
      var cid, rows := Parse(inst.vmCid).value, obs.clusters[inst.az].resources;
      PrintParse(inst.vmCid);
      assert Stamped(cid) <==> cid.cluster != "";
      hide VmCid.Valid;
      RowsIff(rows, PathId(cid), OwnerValue(obs.directorUuid), cid);
      assert Spells(inst.vmCid, cid.vmid, cid.cluster, cid.token);
    }
  }

  lemma RowsIff(rows: seq<Row>, vmid: string, owner: string, cid: Cid)
    ensures (FirstRow(rows, vmid).Some? ==> TaggedAs(FirstRow(rows, vmid).value, owner, cid)) <==>
      forall i | 0 <= i < |rows| && FirstAt(rows, i, vmid) :: TagsAre(rows[i].tags, owner, cid.cluster, cid.token)
  {
    hide TaggedAs;
    hide TagsAre;
    hide FirstAt;
    FirstIff(rows, vmid);
    hide FirstRow;
    forall i | 0 <= i < |rows| ensures TaggedAs(rows[i], owner, cid) <==> TagsAre(rows[i].tags, owner, cid.cluster, cid.token) {
      TagsAreIff(rows[i], owner, cid);
    }
  }

  /** Some instance of the configured AZ has a CID with this cluster stamp. */
  ghost predicate ShowsStamp(obs: Observation, entries: map<string, Entry>, az: string, stamp: string) {
    exists i | 0 <= i < |obs.instances| :: StampedAs(obs.instances[i], entries, az, stamp)
  }

  ghost predicate StampedAs(inst: Instance, entries: map<string, Entry>, az: string, stamp: string) {
    inst.az == az && az in entries && stamp != "" && exists n: nat, token :: Spells(inst.vmCid, n, stamp, token)
  }

  lemma StampedIff(inst: Instance, entries: map<string, Entry>, az: string, stamp: string)
    ensures HasStamp(inst, entries, az, stamp) <==> StampedAs(inst, entries, az, stamp)
  {
    hide Parse;
    hide Spells;
    AllSpellings(inst.vmCid);
    if Parse(inst.vmCid).Some? {
      var cid := Parse(inst.vmCid).value;
      PrintParse(inst.vmCid);
      assert Stamped(cid) <==> cid.cluster != "";
      hide VmCid.Valid;
      assert Spells(inst.vmCid, cid.vmid, cid.cluster, cid.token);
    }
  }

  lemma ShowsIff(obs: Observation, entries: map<string, Entry>)
    ensures forall az, s :: StampSeen(obs.instances, entries, az, s) <==> ShowsStamp(obs, entries, az, s)
  {
    hide HasStamp;
    hide StampedAs;
    forall az, s, i | 0 <= i < |obs.instances|
      ensures HasStamp(obs.instances[i], entries, az, s) <==> StampedAs(obs.instances[i], entries, az, s)
    {
      StampedIff(obs.instances[i], entries, az, s);
    }
  }

  /** No stamp is the unknown one, no AZ shows two, no two AZs show one, and where
      stamps are expected some AZ shows one. */
  ghost predicate StampsApart(obs: Observation, entries: map<string, Entry>, expectStamped: bool) {
    && (forall az :: !ShowsStamp(obs, entries, az, "00000000"))
    && (forall az, s, t | ShowsStamp(obs, entries, az, s) && ShowsStamp(obs, entries, az, t) :: s == t)
    && (forall a, b, s | ShowsStamp(obs, entries, a, s) && ShowsStamp(obs, entries, b, s) :: a == b)
    && (expectStamped ==> exists az, s :: ShowsStamp(obs, entries, az, s))
  }

  lemma ApartIff(obs: Observation, entries: map<string, Entry>, expectStamped: bool)
    ensures StampsOk(obs, entries, expectStamped) <==> StampsApart(obs, entries, expectStamped)
  {
    hide StampSeen;
    hide ShowsStamp;
    ShowsIff(obs, entries);
  }

  /** The VMID is that of some instance of a configured AZ. */
  ghost predicate IsInstance(obs: Observation, entries: map<string, Entry>, vmid: string) {
    exists i | 0 <= i < |obs.instances| :: IsVmid(obs.instances[i], entries, vmid)
  }

  ghost predicate IsVmid(inst: Instance, entries: map<string, Entry>, vmid: string) {
    inst.az in entries && exists n: nat, cluster, token :: Spells(inst.vmCid, n, cluster, token) && vmid == Decimal(n)
  }

  lemma VmidIff(inst: Instance, entries: map<string, Entry>, vmid: string)
    ensures HasVmid(inst, entries, vmid) <==> IsVmid(inst, entries, vmid)
  {
    hide Parse;
    hide Spells;
    hide Decimal;
    AllSpellings(inst.vmCid);
    if Parse(inst.vmCid).Some? {
      var cid := Parse(inst.vmCid).value;
      assert Spells(inst.vmCid, cid.vmid, cid.cluster, cid.token);
    }
  }

  lemma InstanceIff(obs: Observation, entries: map<string, Entry>, vmid: string)
    ensures VmidSeen(obs.instances, entries, vmid) <==> IsInstance(obs, entries, vmid)
  {
    hide HasVmid;
    hide IsVmid;
    forall i | 0 <= i < |obs.instances|
      ensures HasVmid(obs.instances[i], entries, vmid) <==> IsVmid(obs.instances[i], entries, vmid)
    {
      VmidIff(obs.instances[i], entries, vmid);
    }
  }

  /** A row with the Director's owner tag that no instance and no exemption explains. */
  ghost predicate Stray(obs: Observation, entries: map<string, Entry>, az: string, row: Row) {
    && OwnerValue(obs.directorUuid) != "" && HasTag(row.tags, "bosh-owner--" + OwnerValue(obs.directorUuid))
    && !IsInstance(obs, entries, row.vmid)
    && !(az in obs.exempt && row.vmid in obs.exempt[az])
  }

  lemma StrayIff(obs: Observation, entries: map<string, Entry>, az: string, row: Row)
    ensures IsStray(obs, entries, az, row) <==> Stray(obs, entries, az, row)
  {
    hide VmidSeen;
    hide IsInstance;
    hide HasTag;
    hide OwnerValue;
    hide TagValues;
    InstanceIff(obs, entries, row.vmid);
    TagValuesIff(row, OWNER_PREFIX, OwnerValue(obs.directorUuid));
  }

  // ------------------------------------------------------------- the report

  /** The report of a readable observation, finding by finding. */
  ghost predicate Means(r: Report, obs: Observation, entries: map<string, Entry>, expectStamped: bool) {
    && r.Findings?
    && (r.spansAzs <==> forall az | az in entries :: exists i | 0 <= i < |obs.instances| :: obs.instances[i].az == az)
    && (r.vmCluster <==> forall i | 0 <= i < |obs.instances| :: LocatedAs(obs, entries, obs.instances[i]))
    && (r.strays <==> forall az, row | az in obs.clusters && row in obs.clusters[az].resources :: !Stray(obs, entries, az, row))
    && (r.vmBand <==> forall i | 0 <= i < |obs.instances| :: InBand(entries, obs.instances[i]))
    && (r.tags <==> forall i | 0 <= i < |obs.instances| :: TaggedRight(obs, entries, obs.instances[i], expectStamped))
    && (r.stamps <==> StampsApart(obs, entries, expectStamped))
  }

  lemma MeansIff(r: Report, obs: Observation, entries: map<string, Entry>, expectStamped: bool)
    requires Readable(obs, entries)
    ensures Reports(r, obs, entries, expectStamped) <==> Means(r, obs, entries, expectStamped)
  {
    hide LocationOk;
    hide LocatedAs;
    hide BandOk;
    hide InBand;
    hide TagsOk;
    hide TaggedRight;
    hide IsStray;
    hide Stray;
    hide StampsOk;
    hide StampsApart;
    ApartIff(obs, entries, expectStamped);
    forall i | 0 <= i < |obs.instances|
      ensures LocationOk(obs, entries, obs.instances[i]) <==> LocatedAs(obs, entries, obs.instances[i])
      ensures BandOk(entries, obs.instances[i]) <==> InBand(entries, obs.instances[i])
      ensures TagsOk(obs, entries, obs.instances[i], expectStamped) <==> TaggedRight(obs, entries, obs.instances[i], expectStamped)
    {
      LocatedIff(obs, entries, obs.instances[i]);
      BandIff(entries, obs.instances[i]);
      TaggedIff(obs, entries, obs.instances[i], expectStamped);
    }
    forall az, row | az in obs.clusters && row in obs.clusters[az].resources
      ensures IsStray(obs, entries, az, row) <==> Stray(obs, entries, az, row)
    {
      StrayIff(obs, entries, az, row);
    }
  }
}
