/** What the guard proves of every command it lets start, over whole runs. */
module SlotGuardRuns {
  import opened Text
  import opened SlotGuard

  // -------------------------------------------------- first matches are matches

  lemma {:induction false} FirstPathIff(ps: seq<Protected>, from: nat)
    requires from <= |ps|
    ensures FirstPath(ps, from).None? <==> forall i | from <= i < |ps| :: !ps[i].sameLocation
    decreases |ps| - from
  {
    if from < |ps| { FirstPathIff(ps, from + 1); }
  }

  lemma {:induction false} FirstUnreadableIff(ps: seq<Protected>, from: nat)
    requires from <= |ps|
    ensures FirstUnreadable(ps, from).None? <==> forall i | from <= i < |ps| :: ps[i].state.Parsed?
    decreases |ps| - from
  {
    if from < |ps| { FirstUnreadableIff(ps, from + 1); }
  }

  lemma {:induction false} FirstSameVmIff(ps: seq<Protected>, cid: string, from: nat)
    requires from <= |ps| && forall i | 0 <= i < |ps| :: ps[i].state.Parsed?
    ensures FirstSameVm(ps, cid, from).None? <==> forall i | from <= i < |ps| :: IdentityOf(ps[i].state.fields).vmCid != cid
    decreases |ps| - from
  {
    hide TextOf;
    hide Sorted;
    hide EntryCids;
    if from < |ps| { FirstSameVmIff(ps, cid, from + 1); }
  }

  lemma {:induction false} FirstSharedIff(ps: seq<Protected>, mine: Identity, from: nat)
    requires from <= |ps| && forall i | 0 <= i < |ps| :: ps[i].state.Parsed?
    ensures FirstShared(ps, mine, from).None?
       <==> forall i | from <= i < |ps| :: !SharesWith(mine, IdentityOf(ps[i].state.fields))
    decreases |ps| - from
  {
    hide IdentityOf;
    if from < |ps| { FirstSharedIff(ps, mine, from + 1); }
  }

  /** A location and a conflict check that both pass mean the state is separate
      from every protected Director, and the other way round. */
  lemma SeparateIff(w: World, f: Fields)
    ensures Separate(w, f)
       <==> && !w.isDefault && LocationReason(w).None? && ProtectedCids(w.deniedVar).Some?
            && ConflictOf(w.protectedStates, ProtectedCids(w.deniedVar).value, f).None?
  {
    var ps, mine := w.protectedStates, IdentityOf(f);
    hide IdentityOf;
    hide ProtectedCids;
    FirstPathIff(ps, 0);
    FirstUnreadableIff(ps, 0);
    hide FirstPath;
    hide FirstUnreadable;
    if forall i | 0 <= i < |ps| :: ps[i].state.Parsed? {
      FirstSameVmIff(ps, mine.vmCid, 0);
      FirstSharedIff(ps, mine, 0);
      hide FirstSameVm;
      hide FirstShared;
    }
  }

  /** The creds file is absent, empty of certificates, or shares none with a
      protected one. */
  predicate CredsClear(w: World) {
    || w.creds.NoCreds?
    || (w.creds.Creds? && (w.creds.digests == {} ||
          forall p | p in w.protectedStates :: !p.creds.BadCreds? && (p.creds.Creds? ==> p.creds.digests * w.creds.digests == {})))
  }

  lemma {:induction false} FirstCredsIff(ps: seq<Protected>, mine: set<string>, from: nat)
    requires from <= |ps|
    ensures FirstCreds(ps, mine, from).None?
       <==> forall i | from <= i < |ps| :: !ps[i].creds.BadCreds? && (ps[i].creds.Creds? ==> ps[i].creds.digests * mine == {})
    decreases |ps| - from
  {
    if from < |ps| { FirstCredsIff(ps, mine, from + 1); }
  }

  lemma CredsClearIff(w: World)
    ensures CredsClear(w) <==> CredsReason(w).None?
  {
    if w.creds.Creds? { FirstCredsIff(w.protectedStates, w.creds.digests, 0); }
    assert forall i | 0 <= i < |w.protectedStates| :: w.protectedStates[i] in w.protectedStates;
  }

  /** The guard lets a command start exactly when the slot's state is readable and
      separate from every protected Director, is empty or has the recorded
      identity, the deny list is there when required, and the creds are no copy. */
  lemma GuardIff(w: World, requireDenyList: bool)
    ensures RefusalReason(w, requireDenyList).None?
       <==> && w.state.Parsed? && Separate(w, w.state.fields)
            && (requireDenyList ==> ProtectedCids(w.deniedVar).value != [])
            && (IsEmpty(w.state.fields)
                || (w.owner.Owner? && OwnerIdentity(w.owner.record) == IdentityOf(w.state.fields)))
            && CredsClear(w)
  {
    hide IdentityOf;
    hide OwnerIdentity;
    hide ProtectedCids;
    hide ConflictOf;
    hide LocationReason;
    hide CredsReason;
    hide CredsClear;
    SeparateListed(w);
    hide Separate;
    if w.state.Parsed? { SeparateIff(w, w.state.fields); }
    CredsClearIff(w);
  }

  lemma SeparateListed(w: World)
    ensures w.state.Parsed? && Separate(w, w.state.fields) ==> ProtectedCids(w.deniedVar).Some?
  {
  }

  // ------------------------------------------------- the owner record

  /** The cids of a record: trimmed, and never blank. */
  predicate CleanCids(ks: set<string>) { "" !in ks && forall k | k in ks :: Stripped(k) }

  lemma IdentityClean(f: Fields)
    ensures var id := IdentityOf(f); Stripped(id.directorId) && Stripped(id.vmCid) && Stripped(id.diskId)
    ensures CleanCids(EntryCids(f.disks)) && CleanCids(EntryCids(f.stemcells))
  {
    hide TextOf;
    hide Sorted;
  }

  lemma CidsReadBack(ks: set<string>)
    requires CleanCids(ks)
    ensures RecordCids(Texts(Sorted(ks))) == ks
  {
    var cids := Sorted(ks);
    assert Elements(cids) == ks;
    hide Sorted;
    TextsRead(cids);
    hide RecordCids;
    hide Texts;
  }

  lemma CleanText(k: string)
    requires Stripped(k)
    ensures TextOf(Text(k)) == k
  {
    StripStripped(k);
  }

  lemma TextItems(cids: seq<string>)
    requires CleanCids(Elements(cids))
    ensures Texts(cids).List? && |Texts(cids).items| == |cids|
    ensures forall i | 0 <= i < |cids| :: TextOf(Texts(cids).items[i]) == cids[i] && cids[i] != ""
  {
    forall i | 0 <= i < |cids| ensures TextOf(Text(cids[i])) == cids[i] && cids[i] != "" {
      assert cids[i] in Elements(cids);
      CleanText(cids[i]);
    }
    hide TextOf;
    hide Stripped;
  }

  /** A list of clean texts reads back as its elements. */
  lemma TextsRead(cids: seq<string>)
    requires CleanCids(Elements(cids))
    ensures RecordCids(Texts(cids)) == Elements(cids)
  {
    TextItems(cids);
    hide TextOf;
    hide Texts;
    hide CleanCids;
    var items := Texts(cids).items;
    forall i | 0 <= i < |cids| ensures cids[i] in RecordCids(Texts(cids)) {
      assert items[i] in items;
    }
    forall k | k in RecordCids(Texts(cids)) ensures k in Elements(cids) {
      var x :| x in items && TextOf(x) == k;
      var i :| 0 <= i < |items| && items[i] == x;
      assert cids[i] == k;
    }
  }

  /** What write_owner records of a state is read back as that state's identity. */
  lemma OwnerRoundTrip(f: Fields)
    ensures OwnerIdentity(RecordOf(IdentityOf(f))) == IdentityOf(f)
  {
    IdentityClean(f);
    CidsReadBack(EntryCids(f.disks));
    CidsReadBack(EntryCids(f.stemcells));
    StripStripped(TextOf(f.directorId));
    StripStripped(TextOf(f.vmCid));
    StripStripped(TextOf(f.diskId));
    hide Sorted;
    hide Strip;
    hide EntryCids;
    hide RecordCids;
  }

  /** Two states that differ only in the order and repetition of their disk and
      stemcell entries have the same identity. */
  lemma IdentityIgnoresOrder(f: Fields, g: Fields)
    requires f.directorId == g.directorId && f.vmCid == g.vmCid && f.diskId == g.diskId
    requires SameEntries(f.disks, g.disks) && SameEntries(f.stemcells, g.stemcells)
    ensures IdentityOf(f) == IdentityOf(g)
  {
    SameCids(f.disks, g.disks);
    SameCids(f.stemcells, g.stemcells);
    hide Sorted;
    hide TextOf;
    hide EntryCids;
  }

  /** Two lists with the same entries, in any order and any number of times. */
  ghost predicate SameEntries(u: Value, v: Value) {
    u.List? && v.List? && forall e :: e in u.items <==> e in v.items
  }

  lemma SameCids(u: Value, v: Value)
    requires SameEntries(u, v)
    ensures EntryCids(u) == EntryCids(v)
  {
    hide TextOf;
  }

  /** Right after write_owner has recorded a state, and with nothing else changed,
      the guard refuses only for want of a required deny list or over the creds. */
  lemma RecordedThenGuarded(w: World, requireDenyList: bool)
    ensures RecordOwner(w).Wrote? ==>
      RefusalReason(w.(owner := Owner(RecordOwner(w).record)), requireDenyList)
      == if requireDenyList && ProtectedCids(w.deniedVar) == Some([]) then Some(EmptyDenyList) else CredsReason(w)
  {
    hide IdentityOf;
    hide OwnerIdentity;
    hide ProtectedCids;
    hide ConflictOf;
    hide LocationReason;
    hide CredsReason;
    hide RecordOf;
    hide IsEmpty;
    if RecordOwner(w).Wrote? {
      OwnerRoundTrip(w.state.fields);
      var owner := Owner(RecordOwner(w).record);
      SameLocation(w, owner);
      SameCreds(w, owner);
    }
  }

  lemma SameCreds(w: World, owner: OwnerFile)
    ensures CredsReason(w.(owner := owner)) == CredsReason(w)
  {
  }

  lemma SameLocation(w: World, owner: OwnerFile)
    ensures LocationReason(w.(owner := owner)) == LocationReason(w)
  {
  }

  // ---------------------------------------------------------------- runs

  /** A guarded command that may start, an owner recording, or anything any other
      process does to the slot's state, the creds, the protected states and the
      variable. Only write_owner writes the owner record. */
  datatype Event =
    | Guarded(requireDenyList: bool)
    | Recorded
    | Outside(to: World)

  /** A run so far: the world, the worlds in which write_owner wrote, and for each
      command that started, its world and how many recordings came before it. */
  datatype State = State(world: World, recordings: seq<World>, started: seq<(World, nat)>)

  function Step(s: State, e: Event): State {
    match e
    case Guarded(requireDenyList) =>
      if RefusalReason(s.world, requireDenyList).Some? then s
      else s.(started := s.started + [(s.world, |s.recordings|)])
    case Recorded =>
      var r := RecordOwner(s.world);
      if !r.Wrote? then s
      else s.(world := s.world.(owner := Owner(r.record)), recordings := s.recordings + [s.world])
    case Outside(to) => s.(world := to.(owner := s.world.owner))
  }

  function Run(s: State, es: seq<Event>): State
    decreases |es|
  {
    if es == [] then s else Run(Step(s, es[0]), es[1..])
  }

  /** A state this slot recorded: not empty, and separate when it was recorded. */
  predicate ProperRecording(w: World) {
    w.state.Parsed? && !IsEmpty(w.state.fields) && Separate(w, w.state.fields)
  }

  /** What the guard had established for a command that started. */
  predicate ProperStart(s: State, start: (World, nat)) {
    var (w, before) := start;
    && before <= |s.recordings|
    && w.state.Parsed? && Separate(w, w.state.fields) && CredsClear(w)
    && (IsEmpty(w.state.fields)
        || exists i :: 0 <= i < before && s.recordings[i].state.Parsed?
             && IdentityOf(s.recordings[i].state.fields) == IdentityOf(w.state.fields))
  }

  /** The owner file is what some recording wrote. */
  predicate OwnerRecorded(s: State, record: OwnerRecord) {
    exists i :: 0 <= i < |s.recordings| && s.recordings[i].state.Parsed?
                && record == RecordOf(IdentityOf(s.recordings[i].state.fields))
  }

  predicate Proper(s: State) {
    && (s.world.owner.NoOwner? || (s.world.owner.Owner? && OwnerRecorded(s, s.world.owner.record)))
    && (forall i | 0 <= i < |s.recordings| :: ProperRecording(s.recordings[i]))
    && (forall i | 0 <= i < |s.started| :: ProperStart(s, s.started[i]))
  }

  lemma StartProper(s: State, requireDenyList: bool)
    requires Proper(s) && RefusalReason(s.world, requireDenyList).None?
    ensures ProperStart(s, (s.world, |s.recordings|))
  {
    GuardIff(s.world, requireDenyList);
    if !IsEmpty(s.world.state.fields) {
      var i :| 0 <= i < |s.recordings| && s.recordings[i].state.Parsed?
            && s.world.owner.record == RecordOf(IdentityOf(s.recordings[i].state.fields));
      OwnerRoundTrip(s.recordings[i].state.fields);
    }
  }

  lemma StartKept(s: State, s': State, start: (World, nat))
    requires ProperStart(s, start) && s.recordings <= s'.recordings
    ensures ProperStart(s', start)
  {
    var (w, before) := start;
    if !IsEmpty(w.state.fields) {
      var i :| 0 <= i < before && s.recordings[i].state.Parsed?
            && IdentityOf(s.recordings[i].state.fields) == IdentityOf(w.state.fields);
      assert s'.recordings[i] == s.recordings[i];
    }
  }

  lemma StepProper(s: State, e: Event)
    requires Proper(s)
    ensures Proper(Step(s, e))
  {
    match e
    case Guarded(requireDenyList) => GuardedProper(s, requireDenyList);
    case Recorded => RecordProper(s);
    case Outside(to) => OutsideProper(s, to);
  }

  lemma GuardedProper(s: State, requireDenyList: bool)
    requires Proper(s)
    ensures Proper(Step(s, Guarded(requireDenyList)))
  {
    hide RefusalReason;
    hide ProperStart;
    hide ProperRecording;
    var s' := Step(s, Guarded(requireDenyList));
    if RefusalReason(s.world, requireDenyList).None? {
      StartProper(s, requireDenyList);
      forall i | 0 <= i < |s'.started| ensures ProperStart(s', s'.started[i]) {
        if i < |s.started| { StartKept(s, s', s.started[i]); } else { StartKept(s, s', (s.world, |s.recordings|)); }
      }
    }
  }

  lemma OutsideProper(s: State, to: World)
    requires Proper(s)
    ensures Proper(Step(s, Outside(to)))
  {
    hide ProperStart;
    hide ProperRecording;
    var s' := Step(s, Outside(to));
    forall i | 0 <= i < |s'.started| ensures ProperStart(s', s'.started[i]) { StartKept(s, s', s.started[i]); }
  }

  lemma RecordProper(s: State)
    requires Proper(s)
    ensures Proper(Step(s, Recorded))
  {
    hide IdentityOf;
    hide Separate;
    hide ConflictOf;
    hide ProtectedCids;
    hide LocationReason;
    hide IsEmpty;
    hide RecordOf;
    hide ProperStart;
    var s' := Step(s, Recorded);
    if RecordOwner(s.world).Wrote? {
      SeparateIff(s.world, s.world.state.fields);
      assert s'.recordings == s.recordings + [s.world];
      assert s'.recordings[|s.recordings|] == s.world;
      forall i | 0 <= i < |s'.started| ensures ProperStart(s', s'.started[i]) { StartKept(s, s', s.started[i]); }
    }
  }

  lemma {:induction false} RunProper(s: State, es: seq<Event>)
    requires Proper(s)
    ensures Proper(Run(s, es))
    decreases |es|
  {
    hide Proper;
    if es == [] {
    } else {
      StepProper(s, es[0]);
      RunProper(Step(s, es[0]), es[1..]);
    }
  }

  /** From a slot without an owner record, over any mix of guarded commands, owner
      recordings and outside changes: whenever a command started, the slot's state
      shared no location, listed or recorded VM, Director or disk with a protected
      Director, and it was empty or had the identity of a state this slot had
      recorded, which was itself separate when it was recorded. */
  lemma CommandsStartSafely(w: World, es: seq<Event>)
    requires w.owner.NoOwner?
    ensures var s := Run(State(w, [], []), es);
      && (forall i | 0 <= i < |s.started| :: ProperStart(s, s.started[i]))
      && (forall i | 0 <= i < |s.recordings| :: ProperRecording(s.recordings[i]))
  {
    RunProper(State(w, [], []), es);
  }
}
