/** What the guard decides, on the fields of the files it reads: which VMs, Directors
    and disks a state names, and that no command starts on one a protected state names. */
module SlotGuardFields {
  import opened Text
  import opened SlotGuard
  import opened SlotGuardRuns
  import SlotFiles

  // ------------------------------------------------------- what a file names

  /** The field says `s`: its text without the blanks around it is `s`, and not blank. */
  predicate Names(v: Value, s: string) {
    && s != ""
    && match v
       case Null => false
       case Text(t) => Strip(t) == s
       case Scalar(shown, _) => Strip(shown) == s
       case List(_, shown) => Strip(shown) == s
       case Object(_, shown, _) => Strip(shown) == s
  }

  /** Some object of the list has `s` as its cid. */
  predicate NamesEntry(v: Value, s: string) {
    v.List? && exists i | 0 <= i < |v.items| :: v.items[i].Object? && Names(v.items[i].cid, s)
  }

  /** Some element of the list says `s`. */
  predicate NamesItem(v: Value, s: string) {
    v.List? && exists i | 0 <= i < |v.items| :: Names(v.items[i], s)
  }

  /** Both states name one VM, one Director or one disk. */
  ghost predicate Overlap(f: Fields, g: Fields) {
    exists s :: OverlapOn(f, g, s)
  }

  predicate OverlapOn(f: Fields, g: Fields, s: string) {
    || (Names(f.vmCid, s) && Names(g.vmCid, s))
    || (Names(f.directorId, s) && Names(g.directorId, s))
    || (NamesEntry(f.disks, s) && NamesEntry(g.disks, s))
  }

  /** A value Python takes as false. */
  predicate Falsy(v: Value) {
    || v == Null || v == Text("") || (v.List? && v.items == [])
    || (v.Scalar? && !v.truthy) || (v.Object? && !v.truthy)
  }

  predicate HoldsNothing(f: Fields) {
    && Falsy(f.directorId) && Falsy(f.vmCid) && Falsy(f.diskId) && Falsy(f.disks) && Falsy(f.stemcells)
    && !f.otherTruthy
  }

  /** The owner record names what the state names, and nothing else. */
  ghost predicate Records(r: OwnerRecord, f: Fields) {
    forall s ::
      && (Names(r.directorId, s) <==> Names(f.directorId, s))
      && (Names(r.vmCid, s) <==> Names(f.vmCid, s))
      && (Names(r.diskId, s) <==> Names(f.diskId, s))
      && (NamesItem(r.diskCids, s) <==> NamesEntry(f.disks, s))
      && (NamesItem(r.stemcellCids, s) <==> NamesEntry(f.stemcells, s))
  }

  /** Two states name the same things. */
  ghost predicate SameNames(f: Fields, g: Fields) {
    forall s ::
      && (Names(f.directorId, s) <==> Names(g.directorId, s))
      && (Names(f.vmCid, s) <==> Names(g.vmCid, s))
      && (Names(f.diskId, s) <==> Names(g.diskId, s))
      && (NamesEntry(f.disks, s) <==> NamesEntry(g.disks, s))
      && (NamesEntry(f.stemcells, s) <==> NamesEntry(g.stemcells, s))
  }

  /** The deny list is blank, or a comma-separated list of positive numbers. */
  ghost predicate ReadableList(raw: string) {
    Strip(raw) == "" || forall k | 0 <= k < |Split(raw, ',')| :: IsPositive(Strip(Split(raw, ',')[k]))
  }

  ghost predicate IsPositive(s: string) { exists n: nat :: n > 0 && s == Decimal(n) }

  predicate Lists(raw: string, cid: string) {
    Strip(raw) != "" && exists k | 0 <= k < |Split(raw, ',')| :: Strip(Split(raw, ',')[k]) == cid
  }

  /** The slot is nobody's default one, its place and its state are no protected
      Director's, every protected state could be read, and the deny list does not have
      its VM. */
  ghost predicate Apart(w: World, f: Fields) {
    && !w.isDefault && !w.checkoutDefault && ReadableList(w.deniedVar)
    && (forall s | Names(f.vmCid, s) :: !Lists(w.deniedVar, s))
    && forall i | 0 <= i < |w.protectedStates| ::
         && !w.protectedStates[i].sameLocation && w.protectedStates[i].state.Parsed?
         && !Overlap(f, w.protectedStates[i].state.fields)
  }

  // ------------------------------------------------------------------ proofs

  lemma NamesIff(v: Value, s: string)
    ensures Names(v, s) <==> TextOf(v) == s && s != ""
  {
    hide Strip;
  }

  lemma EntryIff(v: Value, s: string)
    ensures NamesEntry(v, s) <==> s in EntryCids(v)
    ensures NamesEntry(v, s) <==> s in Sorted(EntryCids(v))
  {
    hide TextOf;
    hide Names;
    if v.List? {
      forall e | e in v.items && e.Object? ensures Names(e.cid, s) <==> TextOf(e.cid) == s && s != "" { NamesIff(e.cid, s); }
      if s in EntryCids(v) {
        var e :| e in v.items && e.Object? && TextOf(e.cid) == s;
        var i :| 0 <= i < |v.items| && v.items[i] == e;
        assert Names(v.items[i].cid, s);
      }
    }
    SortedIff(EntryCids(v), s);
    hide Sorted;
  }

  lemma ItemIff(v: Value, s: string)
    ensures NamesItem(v, s) <==> s in RecordCids(v)
    ensures NamesItem(v, s) <==> s in Sorted(RecordCids(v))
  {
    hide TextOf;
    hide Names;
    if v.List? {
      forall e | e in v.items ensures Names(e, s) <==> TextOf(e) == s && s != "" { NamesIff(e, s); }
      if s in RecordCids(v) {
        var e :| e in v.items && TextOf(e) == s;
        var i :| 0 <= i < |v.items| && v.items[i] == e;
        assert Names(v.items[i], s);
      }
    }
    SortedIff(RecordCids(v), s);
    hide Sorted;
  }

  lemma SortedIff(ks: set<string>, s: string)
    ensures s in Sorted(ks) <==> s in ks
  {
    assert s in Elements(Sorted(ks)) <==> s in ks;
    hide Sorted;
  }

  /** Two texts that name the same things are the same text. */
  lemma SameText(u: Value, v: Value)
    ensures TextOf(u) == TextOf(v) <==> forall s :: Names(u, s) <==> Names(v, s)
  {
    hide TextOf;
    hide Names;
    forall s ensures (Names(u, s) <==> TextOf(u) == s && s != "") && (Names(v, s) <==> TextOf(v) == s && s != "") {
      NamesIff(u, s);
      NamesIff(v, s);
    }
    if forall s :: Names(u, s) <==> Names(v, s) {
      assert Names(u, TextOf(u)) <==> Names(v, TextOf(u));
      assert Names(u, TextOf(v)) <==> Names(v, TextOf(v));
    }
  }

  lemma OverlapIff(f: Fields, g: Fields)
    ensures !Overlap(f, g) <==>
      var mine, other := IdentityOf(f), IdentityOf(g);
      && (mine.vmCid != "" ==> other.vmCid != mine.vmCid)
      && (mine.directorId != "" ==> other.directorId != mine.directorId)
      && (forall d | d in mine.diskCids :: d !in other.diskCids)
  {
    hide TextOf;
    hide Names;
    hide NamesEntry;
    hide EntryCids;
    hide Sorted;
    var mine, other := IdentityOf(f), IdentityOf(g);
    forall s ensures OverlapOn(f, g, s) <==>
      || (s != "" && mine.vmCid == s == other.vmCid)
      || (s != "" && mine.directorId == s == other.directorId)
      || (s in mine.diskCids && s in other.diskCids)
    {
      NamesIff(f.vmCid, s);
      NamesIff(g.vmCid, s);
      NamesIff(f.directorId, s);
      NamesIff(g.directorId, s);
      EntryIff(f.disks, s);
      EntryIff(g.disks, s);
    }
    hide OverlapOn;
    assert mine.vmCid != "" && other.vmCid == mine.vmCid ==> OverlapOn(f, g, mine.vmCid);
    assert mine.directorId != "" && other.directorId == mine.directorId ==> OverlapOn(f, g, mine.directorId);
    assert forall d | d in mine.diskCids && d in other.diskCids :: OverlapOn(f, g, d);
    hide IdentityOf;
  }

  lemma NothingIff(f: Fields)
    ensures HoldsNothing(f) <==> IsEmpty(f)
  {
  }

  lemma VmidIff(s: string)
    ensures IsVmCid(s) <==> IsPositive(s)
  {
    if IsVmCid(s) { DecimalOfValue(s); }
    hide DecimalValue;
  }

  lemma ListIff(raw: string, cid: string)
    ensures ReadableList(raw) <==> ProtectedCids(raw).Some?
    ensures ReadableList(raw) ==> (Lists(raw, cid) <==> cid in ProtectedCids(raw).value)
  {
    hide Strip;
    hide Split;
    hide IsVmCid;
    hide IsPositive;
    hide ParseEntries;
    var parts := Split(raw, ',');
    if Strip(raw) != "" {
      SlotFiles.EntriesIff(parts);
      forall k | 0 <= k < |parts| ensures IsVmCid(Strip(parts[k])) <==> IsPositive(Strip(parts[k])) {
        VmidIff(Strip(parts[k]));
      }
    }
  }

  lemma ApartIff(w: World, f: Fields)
    ensures Apart(w, f) <==> Separate(w, f)
  {
    hide IdentityOf;
    hide Overlap;
    hide ReadableList;
    hide Lists;
    hide Names;
    hide ProtectedCids;
    ListIff(w.deniedVar, IdentityOf(f).vmCid);
    VmNamed(f);
    forall i | 0 <= i < |w.protectedStates| && w.protectedStates[i].state.Parsed?
      ensures !Overlap(f, w.protectedStates[i].state.fields) <==>
        var mine, other := IdentityOf(f), IdentityOf(w.protectedStates[i].state.fields);
        && (mine.vmCid != "" ==> other.vmCid != mine.vmCid)
        && (mine.directorId != "" ==> other.directorId != mine.directorId)
        && (forall d | d in mine.diskCids :: d !in other.diskCids)
    {
      OverlapIff(f, w.protectedStates[i].state.fields);
    }
  }

  lemma VmNamed(f: Fields)
    ensures forall s :: Names(f.vmCid, s) <==> IdentityOf(f).vmCid == s && s != ""
  {
    hide TextOf;
    hide Names;
    hide EntryCids;
    hide Sorted;
    forall s ensures Names(f.vmCid, s) <==> IdentityOf(f).vmCid == s && s != "" { NamesIff(f.vmCid, s); }
  }

  /** Sorted cids are equal when the same things are named. */
  lemma SameSorted(a: set<string>, b: set<string>)
    ensures Sorted(a) == Sorted(b) <==> a == b
  {
    assert Elements(Sorted(a)) == a && Elements(Sorted(b)) == b;
  }

  lemma SameLists(u: Value, v: Value)
    ensures Sorted(RecordCids(u)) == Sorted(EntryCids(v)) <==> forall s :: NamesItem(u, s) <==> NamesEntry(v, s)
  {
    hide NamesItem;
    hide NamesEntry;
    hide Sorted;
    SameSorted(RecordCids(u), EntryCids(v));
    forall s ensures (NamesItem(u, s) <==> s in RecordCids(u)) && (NamesEntry(v, s) <==> s in EntryCids(v)) {
      ItemIff(u, s);
      EntryIff(v, s);
    }
    hide RecordCids;
    hide EntryCids;
  }

  lemma SameEntryLists(u: Value, v: Value)
    ensures Sorted(EntryCids(u)) == Sorted(EntryCids(v)) <==> forall s :: NamesEntry(u, s) <==> NamesEntry(v, s)
  {
    hide NamesEntry;
    hide Sorted;
    SameSorted(EntryCids(u), EntryCids(v));
    forall s ensures (NamesEntry(u, s) <==> s in EntryCids(u)) && (NamesEntry(v, s) <==> s in EntryCids(v)) {
      EntryIff(u, s);
      EntryIff(v, s);
    }
    hide EntryCids;
  }

  lemma RecordsIff(r: OwnerRecord, f: Fields)
    ensures Records(r, f) <==> OwnerIdentity(r) == IdentityOf(f)
  {
    hide Names;
    hide NamesItem;
    hide NamesEntry;
    hide TextOf;
    hide Sorted;
    hide RecordCids;
    hide EntryCids;
    SameText(r.directorId, f.directorId);
    SameText(r.vmCid, f.vmCid);
    SameText(r.diskId, f.diskId);
    SameLists(r.diskCids, f.disks);
    SameLists(r.stemcellCids, f.stemcells);
  }

  lemma SameNamesIff(f: Fields, g: Fields)
    ensures SameNames(f, g) <==> IdentityOf(f) == IdentityOf(g)
  {
    hide Names;
    hide NamesEntry;
    hide TextOf;
    hide Sorted;
    hide EntryCids;
    SameText(f.directorId, g.directorId);
    SameText(f.vmCid, g.vmCid);
    SameText(f.diskId, g.diskId);
    SameEntryLists(f.disks, g.disks);
    SameEntryLists(f.stemcells, g.stemcells);
  }

  // -------------------------------------------------------------- the guard

  /** The guard lets a command start exactly when the state can be read and is apart
      from every protected Director, holds nothing or is what the owner record names,
      the deny list has an entry where one is required, and the creds are no copy. */
  lemma GuardFields(w: World, requireDenyList: bool)
    ensures RefusalReason(w, requireDenyList).None?
       <==> && w.state.Parsed? && Apart(w, w.state.fields)
            && (requireDenyList ==> Strip(w.deniedVar) != "")
            && (HoldsNothing(w.state.fields) || (w.owner.Owner? && Records(w.owner.record, w.state.fields)))
            && CredsClear(w)
  {
    hide RefusalReason;
    hide Apart;
    hide Separate;
    hide Records;
    hide HoldsNothing;
    hide IsEmpty;
    hide CredsClear;
    hide IdentityOf;
    hide OwnerIdentity;
    hide ProtectedCids;
    GuardIff(w, requireDenyList);
    if w.state.Parsed? {
      ApartIff(w, w.state.fields);
      NothingIff(w.state.fields);
      SeparateListed(w);
      EmptyList(w.deniedVar);
      if w.owner.Owner? { RecordsIff(w.owner.record, w.state.fields); }
    }
  }

  lemma EmptyList(raw: string)
    ensures ProtectedCids(raw).Some? ==> (ProtectedCids(raw).value == [] <==> Strip(raw) == "")
  {
    hide Strip;
    hide ParseEntries;
    if Strip(raw) != "" {
      SlotFiles.EntriesIff(Split(raw, ','));
      hide Split;
    }
  }

  /** write_owner writes exactly when the slot is not the default one and its state can
      be read, holds something and is apart; what it writes names what the state names. */
  lemma RecordFields(w: World)
    ensures RecordOwner(w).Wrote?
       <==> w.state.Parsed? && Apart(w, w.state.fields) && !HoldsNothing(w.state.fields)
    ensures RecordOwner(w).Wrote? ==> Records(RecordOwner(w).record, w.state.fields)
  {
    hide Apart;
    hide Separate;
    hide Records;
    hide HoldsNothing;
    hide IsEmpty;
    hide IdentityOf;
    hide OwnerIdentity;
    hide ProtectedCids;
    hide LocationReason;
    hide ConflictOf;
    hide RecordOf;
    if w.state.Parsed? {
      var f := w.state.fields;
      ApartIff(w, f);
      SeparateIff(w, f);
      NothingIff(f);
      OwnerRoundTrip(f);
      RecordsIff(RecordOf(IdentityOf(f)), f);
    }
  }

  /** A state that names a VM, a Director or a disk some protected state names: no
      command starts on it and it is never recorded as the slot's own. */
  lemma SharedIsRefused(w: World, requireDenyList: bool, i: nat, s: string)
    requires w.state.Parsed? && i < |w.protectedStates| && w.protectedStates[i].state.Parsed?
    requires OverlapOn(w.state.fields, w.protectedStates[i].state.fields, s)
    ensures RefusalReason(w, requireDenyList).Some? && !RecordOwner(w).Wrote?
  {
    hide RefusalReason;
    hide RecordOwner;
    hide OverlapOn;
    GuardFields(w, requireDenyList);
    RecordFields(w);
    assert Overlap(w.state.fields, w.protectedStates[i].state.fields);
  }

  // ------------------------------------------------------------------- runs

  /** The state a command started on. */
  ghost predicate StartedApart(s: State, start: (World, nat)) {
    var (w, before) := start;
    && before <= |s.recordings| && w.state.Parsed? && Apart(w, w.state.fields) && CredsClear(w)
    && (HoldsNothing(w.state.fields)
        || exists i | 0 <= i < before :: s.recordings[i].state.Parsed? && SameNames(s.recordings[i].state.fields, w.state.fields))
  }

  /** From a slot without an owner record, over any mix of guarded commands, owner
      recordings and outside changes: no command ever started on a VM, a Director or a
      disk that a protected state named then, and each found nothing in the state or
      just what an earlier recording had found apart. */
  lemma CommandsStartApart(w: World, es: seq<Event>)
    requires w.owner.NoOwner?
    ensures var s := Run(State(w, [], []), es);
      && (forall i | 0 <= i < |s.started| :: StartedApart(s, s.started[i]))
      && (forall i | 0 <= i < |s.recordings| ::
            s.recordings[i].state.Parsed? && Apart(s.recordings[i], s.recordings[i].state.fields))
  {
    assert Proper(State(w, [], []));
    RunProper(State(w, [], []), es);
    hide Proper;
    AllApart(Run(State(w, [], []), es));
    hide StartedApart;
    hide Apart;
  }

  lemma AllApart(s: State)
    requires Proper(s)
    ensures forall i | 0 <= i < |s.started| :: StartedApart(s, s.started[i])
    ensures forall i | 0 <= i < |s.recordings| ::
      s.recordings[i].state.Parsed? && Apart(s.recordings[i], s.recordings[i].state.fields)
  {
    hide ProperStart;
    hide ProperRecording;
    hide StartedApart;
    hide Apart;
    forall i | 0 <= i < |s.started| ensures StartedApart(s, s.started[i]) { ProperIsApart(s, s.started[i]); }
    forall i | 0 <= i < |s.recordings|
      ensures s.recordings[i].state.Parsed? && Apart(s.recordings[i], s.recordings[i].state.fields)
    {
      RecordingIsApart(s.recordings[i]);
    }
  }

  lemma RecordingIsApart(w: World)
    requires ProperRecording(w)
    ensures w.state.Parsed? && Apart(w, w.state.fields)
  {
    hide Separate;
    hide Apart;
    ApartIff(w, w.state.fields);
  }

  lemma ProperIsApart(s: State, start: (World, nat))
    requires ProperStart(s, start)
    ensures StartedApart(s, start)
  {
    hide Separate;
    hide Apart;
    hide SameNames;
    hide HoldsNothing;
    hide IsEmpty;
    hide IdentityOf;
    hide CredsClear;
    var (w, before) := start;
    ApartIff(w, w.state.fields);
    NothingIff(w.state.fields);
    if !IsEmpty(w.state.fields) {
      var i :| 0 <= i < before && s.recordings[i].state.Parsed?
            && IdentityOf(s.recordings[i].state.fields) == IdentityOf(w.state.fields);
      SameNamesIff(s.recordings[i].state.fields, w.state.fields);
    }
  }
}
