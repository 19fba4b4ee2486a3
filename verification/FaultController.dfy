/** apply, restore, fill_inodes and restore_inodes as they run: statement by
    statement on the host's own state, each proved to end where the traces of
    `FaultBackend` end. */
module FaultController {
  import opened Text
  import opened FaultBackend
  import opened FaultBackendUndo
  import opened FaultBackendApply

  class Host {
    const dedicated: bool
    const marker: Marker
    const device: nat
    const lockFile: bool
    var mount: Mount
    var exports: seq<Export>
    var quota: Quota
    var state: StateFile
    var filler: Option<Filler>
    var fillLog: Option<FillLog>
    var freeInodes: nat
    var nextInode: nat

    constructor (w: World)
      ensures Now() == w
    {
      dedicated, marker, device, lockFile := w.dedicated, w.marker, w.device, w.lockFile;
      mount, exports, quota := w.mount, w.exports, w.quota;
      state, filler, fillLog := w.state, w.filler, w.fillLog;
      freeInodes, nextInode := w.freeInodes, w.nextInode;
    }

    function Now(): World
      reads this
    {
      World(dedicated, marker, mount, exports, quota, lockFile, state, filler, fillLog, device, freeInodes, nextInode)
    }

    /** Take a free inode for a new file or directory, or fail with ENOSPC or EROFS. */
    method TakeInode() returns (id: Option<Identity>)
      modifies this`freeInodes, this`nextInode
      ensures id.Some? <==> CanCreate(old(Now()))
      ensures id.Some? ==> id.value == NextIdentity(old(Now())) && Now() == UseInode(old(Now()))
      ensures id.None? ==> Now() == old(Now())
    {
      if RW in mount.options && RO !in mount.options && freeInodes > 0 {
        id := Some(Identity(device, nextInode));
        freeInodes, nextInode := freeInodes - 1, nextInode + 1;
      } else {
        id := None;
      }
    }

    method FillInodes(limit: nat)
      requires filler.Some? && fillLog.Some?
      modifies this
      ensures var t := Fill(old(Now()), 0, limit); Now() == t[|t| - 1]
    {
      var index := 0;
      FillEndIsLast(Now(), 0, limit);
      while index < limit
        invariant 0 <= index <= limit && filler.Some? && fillLog.Some?
        invariant FillEnd(Now(), index, limit) == FillEnd(old(Now()), 0, limit)
      {
        ghost var before := Now();
        var id := TakeInode();
        if id.None? { break; }
        filler := Some(filler.value.(entries := filler.value.entries[Decimal(index) := Entry(id.value, true)]));
        fillLog := Some(fillLog.value.(records := fillLog.value.records + [Record(Decimal(index), id.value)]));
        assert Now() == Logged(before, index);
        index := index + 1;
      }
    }

    /** The dictionary of log records by name; a later record of a name replaces
        an earlier one. */
    method RecordsByName(records: seq<Record>) returns (byName: map<string, Record>)
      ensures byName.Keys == Names(records)
      ensures |byName| == |records| <==> DistinctNames(records)
      ensures Keyed(byName, records)
    {
      byName := map[];
      var i := 0;
      assert Dictionary(byName, records[..0]);
      hide Names;
      hide DistinctNames;
      hide Keyed;
      while i < |records|
        invariant 0 <= i <= |records|
        invariant Dictionary(byName, records[..i])
      {
        DictionaryPush(byName, records, i);
        byName := byName[records[i].name := records[i]];
        i := i + 1;
      }
      assert records[..i] == records;
    }

    /** The checks of restore_inodes, in its order. */
    method CheckFiller(saved: Saved) returns (owned: bool)
      ensures owned == OwnsFiller(Now(), saved)
    {
      if saved.fillerDirectory.None? { return false; }
      if filler.None? || filler.value.id != saved.fillerDirectory.value { return false; }
      if fillLog.None? || Some(fillLog.value.id) != saved.fillerLog { return false; }
      if fillLog.value.torn { return false; }
      var records, onDisk := fillLog.value.records, filler.value.entries;
      var entries := RecordsByName(records);
      if |entries| != |records| || entries.Keys != onDisk.Keys { return false; }
      var todo := entries.Keys;
      while todo != {}
        invariant todo <= entries.Keys
        invariant forall name | name in entries.Keys - todo :: Matches(entries[name], onDisk)
        decreases todo
      {
        var name :| name in todo;
        if !(name != [] && forall i :: 0 <= i < |name| ==> IsDigit(name[i])) {
          assert entries[name] in records && !OwnsFiller(Now(), saved);
          return false;
        }
        if onDisk[name] != Entry(entries[name].id, true) {
          assert entries[name] in records && !OwnsFiller(Now(), saved);
          return false;
        }
        todo := todo - {name};
      }
      forall r | r in records ensures Matches(r, onDisk) {
        assert r.name in entries;
        OneRecordPerName(records, r, entries[r.name]);
      }
      return true;
    }

    method UnlinkRecords(records: seq<Record>)
      requires filler.Some?
      modifies this`filler, this`freeInodes
      ensures Now() == UnlinkEnd(old(Now()), records)
    {
      var i := 0;
      while i < |records|
        invariant 0 <= i <= |records| && filler.Some?
        invariant UnlinkEnd(Now(), records[i..]) == UnlinkEnd(old(Now()), records)
      {
        assert records[i..][1..] == records[i + 1..];
        filler := Some(filler.value.(entries := filler.value.entries - {records[i].name}));
        freeInodes := freeInodes + 1;
        i := i + 1;
      }
    }

    /** restore_inodes. Nothing is unlinked unless every entry is owned; then
        exactly the logged entries, the directory and the log go. */
    method RestoreInodes(saved: Saved) returns (ok: bool)
      modifies this
      ensures ok <==> OwnsFiller(old(Now()), saved) && Writable(old(Now()))
      ensures !ok ==> Now() == old(Now())
      ensures ok ==> fillLog.None? && filler.None?
      ensures ok ==> var t := Unlink(old(Now()), old(fillLog.value.records)); Now() == NoLog(NoDirectory(t[|t| - 1]))
    {
      ok := CheckFiller(saved);
      if !ok || RW !in mount.options || RO in mount.options { return false; }
      var records := fillLog.value.records;
      UnlinkEndIsLast(Now(), records);
      hide OwnsFiller;
      UnlinkRecords(records);
      filler, freeInodes := None, freeInodes + 1;
      fillLog, freeInodes := None, freeInodes + 1;
    }

    /** private_json of the state file: exclusive creation, then the contents. */
    method SaveState(saved: Saved) returns (ok: bool)
      modifies this
      ensures ok <==> old(state) == Absent && CanCreate(old(Now()))
      ensures !ok ==> Now() == old(Now())
      ensures ok ==> Now() == UseInode(old(Now())).(state := Durable(NextIdentity(old(Now())), saved))
    {
      if state != Absent { return false; }
      var id := TakeInode();
      if id.None? { return false; }
      state := Torn(id.value);
      state := Durable(id.value, saved);
      return true;
    }

    method RunApply(fx: Fixture, fault: Fault) returns (ok: bool)
      modifies this
      ensures ok == Apply(old(Now()), fx, fault).ok
      ensures Now() == Last(Apply(old(Now()), fx, fault))
      ensures ok <==> Admissible(old(Now()), fx, fault) && (fault.InodeExhaustion? ==> old(freeInodes) >= 3)
      ensures ok ==> state.Durable? && state.saved.fault == fault
      ensures ok && !fault.InodeExhaustion? ==> Current(Now()) == Faulted(Current(old(Now())), fault)
      ensures ok && fault.InodeExhaustion? ==> freeInodes == 0
      ensures !Admissible(old(Now()), fx, fault) ==> Now() == old(Now())
    {
      hide Admissible;
      hide Faulted;
      hide Apply;
      Applies(Now(), fx, fault);
      ok := FollowApply(fx, fault);
    }

    method FollowApply(fx: Fixture, fault: Fault) returns (ok: bool)
      modifies this
      ensures ok == Apply(old(Now()), fx, fault).ok
      ensures Now() == Last(Apply(old(Now()), fx, fault))
    {
      var plan := Prepare(Now(), fx, fault);
      if plan.None? { return false; }
      var saved := plan.value;
      var written := SaveState(saved);
      if !written { return false; }
      if fault.InodeExhaustion? {
        ok := RunExhaust(fx, saved);
        return;
      }
      match fault {
        case ExportOutage => exports := Unexport(exports, fx.exportClient);
        case ReadOnly => mount := mount.(options := Remount(mount.options, RW, RO));
        case QuotaExhaustion =>
          var limits := saved.quota.value;
          quota := SetBlockLimits(quota, ExhaustedLimit(limits.space), 0);
        case _ =>
      }
      if EffectObserved(Now(), fx, saved) { return true; }
      var _ := RunRestore(fx);
      return false;
    }

    method RunExhaust(fx: Fixture, saved: Saved) returns (ok: bool)
      requires state.Durable?
      modifies this
      ensures ok == ExhaustInodes(old(Now()), fx, saved).ok
      ensures Now() == Last(ExhaustInodes(old(Now()), fx, saved))
    {
      ghost var start := Now();
      hide Restore;
      hide Fill;
      hide FillEnd;
      hide Inspect;
      hide Checkpoint;
      var made := MakeFiller(saved);
      if !made {
        var _ := RunRestore(fx);
        return false;
      }
      FillInodes(fx.inodeLimit);
      if freeInodes == 0 && Inspect(Now(), fx).Some? { return true; }
      var _ := RunRestore(fx);
      return false;
    }

    /** The filler directory, its log, and the state file that names them both. */
    method MakeFiller(saved: Saved) returns (made: bool)
      requires state.Durable?
      modifies this
      ensures made <==> CanCreate(old(Now())) && CanCreate(DirectoryMade(old(Now())))
      ensures made ==> Now() == Checkpoint(old(Now()), saved)
      ensures !made ==> Now() == if CanCreate(old(Now())) then DirectoryMade(old(Now())) else old(Now())
    {
      ghost var start := Now();
      var directory := TakeInode();
      if directory.None? { return false; }
      filler := Some(Filler(directory.value, map[]));
      assert Now() == DirectoryMade(start);
      var log := TakeInode();
      if log.None? { return false; }
      fillLog := Some(FillLog(log.value, [], false));
      var id := state.id;
      state := Torn(id);
      state := Durable(id, saved.(fillerDirectory := Some(directory.value), fillerLog := Some(log.value)));
      return true;
    }

    method RunRestore(fx: Fixture) returns (ok: bool)
      modifies this
      ensures ok == Restore(old(Now()), fx).ok
      ensures Now() == Last(Restore(old(Now()), fx))
    {
      hide ExpectedMount;
      hide Undo;
      var observed := Inspect(Now(), fx);
      if observed.None? || !state.Durable? { return false; }
      var seen, saved := observed.value, state.saved;
      if saved.fixture != fx || saved.before.mount.source != seen.mount.source { return false; }
      if seen.mount != saved.before.mount && seen.mount != ExpectedMount(saved) { return false; }
      if !saved.fault.ExportOutage? && seen.exports != saved.before.exports { return false; }
      ok := RunUndo(fx, saved);
    }

    method RunUndo(fx: Fixture, saved: Saved) returns (ok: bool)
      modifies this
      ensures ok == Undo(old(Now()), fx, saved).ok
      ensures Now() == Last(Undo(old(Now()), fx, saved))
    {
      hide UndoCommand;
      hide OwnsFiller;
      hide Unlink;
      hide Inspect;
      if saved.fault.InodeExhaustion? {
        ok := RestoreInodes(saved);
      } else {
        ok := RunUndoCommand(saved);
      }
      if ok { ok := RunSettle(fx, saved); }
    }

    method RunUndoCommand(saved: Saved) returns (ok: bool)
      requires !saved.fault.InodeExhaustion?
      modifies this`exports, this`mount, this`quota
      ensures ok == UndoCommand(old(Now()), saved).Some?
      ensures Now() == if ok then UndoCommand(old(Now()), saved).value else old(Now())
    {
      hide Remount;
      hide Reexport;
      hide ExhaustedLimit;
      match saved.fault {
        case ExportOutage =>
          if exports != [] && exports != saved.before.exports { return false; }
          if saved.before.exports == [] { return false; }
          exports := Reexport(exports, saved.before.exports[0]);
        case ReadOnly =>
          mount := mount.(options := Remount(mount.options, RO, RW));
        case QuotaExhaustion =>
          if saved.quota.None? { return false; }
          var limits := saved.quota.value;
          var current := (quota.blockHard, quota.blockSoft);
          if current != (limits.blockHard, limits.blockSoft) && current != (ExhaustedLimit(limits.space), 0) { return false; }
          quota := SetBlockLimits(quota, limits.blockHard, limits.blockSoft);
        case Unsupported(_) =>
          return false;
      }
      return true;
    }

    method RunSettle(fx: Fixture, saved: Saved) returns (ok: bool)
      modifies this`state, this`freeInodes
      ensures ok <==> Inspect(old(Now()), fx) == Some(saved.before) && Writable(old(Now()))
      ensures Now() == if ok then old(Now()).(state := Absent, freeInodes := old(freeInodes) + 1) else old(Now())
    {
      if Inspect(Now(), fx) != Some(saved.before) || RW !in mount.options || RO in mount.options { return false; }
      state, freeInodes := Absent, freeInodes + 1;
      return true;
    }
  }

  /** The logged identity is the one on disk, under a decimal name. */
  predicate Matches(r: Record, onDisk: map<string, Entry>) {
    r.name != [] && AllDigits(r.name) && r.name in onDisk && onDisk[r.name] == Entry(r.id, true)
  }

  /** Where a fill ends, without its crash points. */
  function FillEnd(w: World, index: nat, limit: nat): World
    requires w.filler.Some? && w.fillLog.Some?
    decreases limit - index
  {
    if index >= limit || !CanCreate(w) then w else FillEnd(Logged(w, index), index + 1, limit)
  }

  lemma {:induction false} FillEndIsLast(w: World, index: nat, limit: nat)
    requires w.filler.Some? && w.fillLog.Some?
    ensures var t := Fill(w, index, limit); FillEnd(w, index, limit) == t[|t| - 1]
    decreases limit - index
  {
    if index < limit && CanCreate(w) {
      FillEndIsLast(Logged(w, index), index + 1, limit);
      assert Fill(w, index, limit)
          == [w, Created(w, index), HalfLogged(w, index)] + Fill(Logged(w, index), index + 1, limit);
    }
  }

  /** Where an unlinking ends, without its crash points. */
  function UnlinkEnd(w: World, records: seq<Record>): World
    requires w.filler.Some?
    decreases |records|
  {
    if records == [] then w
    else
      var filler := w.filler.value;
      UnlinkEnd(w.(filler := Some(filler.(entries := filler.entries - {records[0].name})),
                   freeInodes := w.freeInodes + 1), records[1..])
  }

  lemma {:induction false} UnlinkEndIsLast(w: World, records: seq<Record>)
    requires w.filler.Some?
    ensures var t := Unlink(w, records); UnlinkEnd(w, records) == t[|t| - 1]
    decreases |records|
  {
    if records == [] {
    } else {
      var filler := w.filler.value;
      UnlinkEndIsLast(w.(filler := Some(filler.(entries := filler.entries - {records[0].name})),
                         freeInodes := w.freeInodes + 1), records[1..]);
    }
  }

  /** Each entry is a record of that name. */
  predicate Keyed(m: map<string, Record>, records: seq<Record>) {
    forall name | name in m :: m[name] in records && m[name].name == name
  }

  predicate Dictionary(m: map<string, Record>, records: seq<Record>) {
    && m.Keys == Names(records) && Keyed(m, records)
    && |m| <= |records| && (|m| == |records| <==> DistinctNames(records))
  }

  lemma DictionaryPush(m: map<string, Record>, records: seq<Record>, i: nat)
    requires i < |records| && Dictionary(m, records[..i])
    ensures Dictionary(m[records[i].name := records[i]], records[..i + 1])
  {
    var r := records[i];
    NamesPush(records, i);
    MapSize(m, r);
    hide Names;
    hide DistinctNames;
    KeyedPush(m, records, i);
    hide Keyed;
  }

  lemma KeyedPush(m: map<string, Record>, records: seq<Record>, i: nat)
    requires i < |records| && Keyed(m, records[..i])
    ensures Keyed(m[records[i].name := records[i]], records[..i + 1])
  {
    assert records[..i + 1] == records[..i] + [records[i]];
  }

  lemma MapSize(m: map<string, Record>, r: Record)
    ensures m[r.name := r].Keys == m.Keys + {r.name}
    ensures |m[r.name := r]| == if r.name in m then |m| else |m| + 1
  {
    if r.name in m {
      assert m[r.name := r].Keys == m.Keys;
      assert |m[r.name := r].Keys| == |m[r.name := r]| && |m.Keys| == |m|;
    }
  }

  lemma NamesPush(records: seq<Record>, i: nat)
    requires i < |records|
    ensures Names(records[..i + 1]) == Names(records[..i]) + {records[i].name}
    ensures DistinctNames(records[..i + 1]) <==> DistinctNames(records[..i]) && records[i].name !in Names(records[..i])
  {
    assert records[..i + 1] == records[..i] + [records[i]];
    if records[i].name in Names(records[..i]) {
      var j :| 0 <= j < i && records[..i][j].name == records[i].name;
      assert records[..i + 1][j].name == records[..i + 1][i].name;
    }
  }

  lemma OneRecordPerName(records: seq<Record>, a: Record, b: Record)
    requires DistinctNames(records) && a in records && b in records && a.name == b.name
    ensures a == b
  {
  }
}
