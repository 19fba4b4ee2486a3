/** The inode fault: what it uses up, what it gives back, and what it may unlink. */
module FaultBackendInodes {
  import opened Text
  import opened FaultBackend

  /** Inodes the controller's own files hold. */
  function Held(w: World): nat {
    (if w.lockFile then 1 else 0)
    + (if w.state == Absent then 0 else 1)
    + (if w.filler.None? then 0 else 1 + |w.filler.value.entries|)
    + (if w.fillLog.None? then 0 else 1)
  }

  function Total(w: World): nat { w.freeInodes + Held(w) }

  predicate AllTotal(t: seq<World>, n: nat) { forall x | x in t :: Total(x) == n }

  /** The filler directory and the log agree on exactly the first `count` numbers. */
  predicate FilledTo(w: World, count: nat) {
    && w.filler.Some? && w.fillLog.Some? && !w.fillLog.value.torn
    && var records, entries := w.fillLog.value.records, w.filler.value.entries;
    && |records| == count
    && (forall j :: 0 <= j < count ==> records[j].name == Decimal(j))
    && entries.Keys == Names(records)
    && forall r | r in records :: r.name in entries && entries[r.name] == Entry(r.id, true)
  }

  lemma FreshName(w: World, count: nat)
    requires FilledTo(w, count)
    ensures Decimal(count) !in w.filler.value.entries
    ensures DistinctNames(w.fillLog.value.records)
  {
    var records := w.fillLog.value.records;
    forall j | 0 <= j < count ensures Decimal(j) != Decimal(count) {
      if Decimal(j) == Decimal(count) { DecimalInjective(j, count); }
    }
    assert forall r | r in records :: r.name != Decimal(count);
    forall i, j | 0 <= i < j < count ensures records[i].name != records[j].name {
      if Decimal(i) == Decimal(j) { DecimalInjective(i, j); }
    }
  }

  lemma LoggedFills(w: World, count: nat)
    requires FilledTo(w, count) && CanCreate(w)
    ensures FilledTo(Logged(w, count), count + 1)
  {
    FreshName(w, count);
    var log, r := w.fillLog.value, Record(Decimal(count), NextIdentity(w));
    NamesAppend(log.records, r);
    hide Names;
    hide Decimal;
    assert Logged(w, count).fillLog.value.records == log.records + [r];
  }

  lemma NamesAppend(records: seq<Record>, r: Record)
    ensures Names(records + [r]) == Names(records) + {r.name}
  {
    forall name ensures name in Names(records + [r]) <==> name in Names(records) + {r.name} {
      if name in Names(records) {
        var e :| e in records && e.name == name;
        assert e in records + [r];
      }
      assert (records + [r])[|records|] == r;
    }
  }

  /** What holds of each crash point `x` of a fill that started at `w`. */
  predicate FillPoint(x: World, w: World)
    requires w.filler.Some? && w.fillLog.Some?
  {
    && Total(x) == Total(w)
    && x == w.(filler := x.filler, fillLog := x.fillLog, freeInodes := x.freeInodes, nextInode := x.nextInode)
    && x.filler.Some? && x.filler.value.id == w.filler.value.id
    && x.fillLog.Some? && x.fillLog.value.id == w.fillLog.value.id
    && (InStep(x) ==> FilledTo(x, |x.fillLog.value.records|))
  }

  lemma CreatedPoints(w: World, index: nat)
    requires FilledTo(w, index) && CanCreate(w)
    ensures FillPoint(w, w) && FillPoint(Created(w, index), w) && FillPoint(HalfLogged(w, index), w)
  {
    FreshName(w, index);
    NamesCount(w, index);
    assert |Created(w, index).filler.value.entries| == |w.filler.value.entries| + 1;
  }

  lemma LoggedPoint(w: World, index: nat, x: World)
    requires FilledTo(w, index) && CanCreate(w) && FillPoint(x, Logged(w, index))
    ensures FillPoint(x, w)
  {
    FreshName(w, index);
    assert |Logged(w, index).filler.value.entries| == |w.filler.value.entries| + 1;
  }

  /** The fill loop conserves inodes at each of its crash points, and where
      directory and log are in step they agree on every entry. */
  lemma {:induction false} FillConserves(w: World, index: nat, limit: nat)
    requires FilledTo(w, index)
    ensures forall x | x in Fill(w, index, limit) :: FillPoint(x, w)
    decreases limit - index
  {
    if index < limit && CanCreate(w) {
      CreatedPoints(w, index);
      LoggedFills(w, index);
      var rest := Fill(Logged(w, index), index + 1, limit);
      FillConserves(Logged(w, index), index + 1, limit);
      forall x | x in rest ensures FillPoint(x, w) { LoggedPoint(w, index, x); }
    }
  }

  /** As many entries as whole records, and no half-written record. */
  predicate InStep(w: World) {
    && w.filler.Some? && w.fillLog.Some? && !w.fillLog.value.torn
    && |w.filler.value.entries| == |w.fillLog.value.records|
  }

  lemma NamesCount(w: World, count: nat)
    requires FilledTo(w, count)
    ensures |w.filler.value.entries| == count
  {
    FreshName(w, count);
    DistinctCount(w.fillLog.value.records);
    assert |w.filler.value.entries.Keys| == |w.filler.value.entries|;
  }

  lemma {:induction false} DistinctCount(records: seq<Record>)
    requires DistinctNames(records)
    ensures |Names(records)| == |records|
  {
    if records == [] {
    } else {
      var last := records[|records| - 1];
      var init := records[..|records| - 1];
      DistinctCount(init);
      assert records == init + [last];
      assert Names(records) == Names(init) + {last.name};
      assert last.name !in Names(init);
    }
  }

  /** Filling from `index` reaches zero free inodes when the limit leaves room
      for them all. */
  lemma {:induction false} FillExhausts(w: World, index: nat, limit: nat)
    requires FilledTo(w, index) && Writable(w) && index + w.freeInodes <= limit
    ensures var t := Fill(w, index, limit);
      t[|t| - 1].freeInodes == 0 && FilledTo(t[|t| - 1], index + w.freeInodes)
    decreases limit - index
  {
    if w.freeInodes > 0 {
      hide FilledTo;
      LoggedFills(w, index);
      var next := Logged(w, index);
      assert next.freeInodes == w.freeInodes - 1 && Writable(next);
      hide Logged;
      hide Created;
      hide HalfLogged;
      FillExhausts(next, index + 1, limit);
      var rest := Fill(next, index + 1, limit);
      var t := Fill(w, index, limit);
      assert t == [w, Created(w, index), HalfLogged(w, index)] + rest;
      assert t[|t| - 1] == rest[|rest| - 1];
    }
  }

  /** The world after one unlink. */
  function Dropped(w: World, name: string): World
    requires w.filler.Some?
  {
    var filler := w.filler.value;
    w.(filler := Some(filler.(entries := filler.entries - {name})), freeInodes := w.freeInodes + 1)
  }

  lemma DroppedTotal(w: World, records: seq<Record>)
    requires w.filler.Some? && records != []
    requires DistinctNames(records) && Names(records) == w.filler.value.entries.Keys
    ensures var next := Dropped(w, records[0].name);
      Total(next) == Total(w) && Names(records[1..]) == next.filler.value.entries.Keys
  {
    var filler := w.filler.value;
    var first := records[0].name;
    assert records[0] in records;
    var left := filler.entries - {first};
    TailNames(records);
    assert left.Keys == filler.entries.Keys - {first};
    assert |left.Keys| == |left| && |filler.entries.Keys| == |filler.entries|;
  }

  lemma {:induction false} UnlinkConserves(w: World, records: seq<Record>)
    requires w.filler.Some? && DistinctNames(records) && Names(records) == w.filler.value.entries.Keys
    ensures AllTotal(Unlink(w, records), Total(w))
    ensures var t := Unlink(w, records); var last := t[|t| - 1];
      && last == w.(filler := last.filler, freeInodes := last.freeInodes)
      && last.filler == Some(Filler(w.filler.value.id, map[]))
    decreases |records|
  {
    if records == [] {
      assert w.filler.value.entries.Keys == {};
      assert w.filler.value.entries == map[];
    } else {
      DroppedTotal(w, records);
      var next := Dropped(w, records[0].name);
      hide Total;
      hide Names;
      UnlinkConserves(next, records[1..]);
      var rest := Unlink(next, records[1..]);
      assert Unlink(w, records) == [w] + rest;
    }
  }

  lemma TailNames(records: seq<Record>)
    requires DistinctNames(records) && records != []
    ensures Names(records[1..]) == Names(records) - {records[0].name}
  {
    forall name ensures name in Names(records[1..]) <==> name in Names(records) - {records[0].name} {
      if name in Names(records) - {records[0].name} {
        var i :| 0 <= i < |records| && records[i].name == name;
        assert records[1..][i - 1] in records[1..];
      }
      if name in Names(records[1..]) {
        var i :| 0 <= i < |records| - 1 && records[1..][i].name == name;
        assert records[i + 1] in records;
      }
    }
  }

  lemma SettleConserves(before: seq<World>, w: World, fx: Fixture, saved: Saved, n: nat)
    requires AllTotal(before, n) && Total(w) == n && w.state != Absent
    ensures AllTotal(Settle(before, w, fx, saved).trace, n)
  {
  }

  /** Whatever restore is asked to undo, no inode is lost or gained on the way. */
  lemma RestoreConserves(w: World, fx: Fixture)
    ensures AllTotal(Restore(w, fx).trace, Total(w))
  {
    var n := Total(w);
    if w.state.Durable? {
      var saved := w.state.saved;
      match saved.fault
      case ExportOutage =>
        if saved.before.exports != [] {
          SettleConserves([w], w.(exports := Reexport(w.exports, saved.before.exports[0])), fx, saved, n);
        }
      case ReadOnly =>
        SettleConserves([w], w.(mount := w.mount.(options := Remount(w.mount.options, RO, RW))), fx, saved, n);
      case QuotaExhaustion =>
        if saved.quota.Some? {
          var limits := saved.quota.value;
          SettleConserves([w], w.(quota := SetBlockLimits(w.quota, limits.blockHard, limits.blockSoft)), fx, saved, n);
        }
      case InodeExhaustion => RestoreInodesConserves(w, fx, saved);
      case Unsupported(_) =>
    }
  }

  lemma RestoreInodesConserves(w: World, fx: Fixture, saved: Saved)
    requires w.state != Absent
    ensures AllTotal(RestoreInodes(w, fx, saved).trace, Total(w))
  {
    if OwnsFiller(w, saved) && Writable(w) {
      var records := w.fillLog.value.records;
      var unlinked := Unlink(w, records);
      UnlinkConserves(w, records);
      hide Unlink;
      hide OwnsFiller;
      hide Names;
      EmptiedTotal(w, unlinked[|unlinked| - 1]);
      hide Total;
      var noDir := NoDirectory(unlinked[|unlinked| - 1]);
      assert AllTotal(unlinked + [noDir], Total(w));
      SettleConserves(unlinked + [noDir], NoLog(noDir), fx, saved, Total(w));
    }
  }

  lemma EmptiedTotal(w: World, emptied: World)
    requires emptied.filler.Some? && emptied.filler.value.entries == map[] && emptied.fillLog.Some?
    ensures Total(NoDirectory(emptied)) == Total(emptied) == Total(NoLog(NoDirectory(emptied)))
  {
  }

  lemma ExhaustConserves(w: World, fx: Fixture, saved: Saved)
    requires w.state.Durable? && w.filler.None? && w.fillLog.None?
    ensures AllTotal(ExhaustInodes(w, fx, saved).trace, Total(w))
  {
    hide Restore;
    hide Fill;
    if !CanCreate(w) {
      RestoreConserves(w, fx);
    } else {
      var made := DirectoryMade(w);
      if !CanCreate(made) {
        RestoreConserves(made, fx);
      } else {
        FillPoints(w, fx, saved);
        var filled := Fill(Checkpoint(w, saved), 0, fx.inodeLimit);
        var last := filled[|filled| - 1];
        assert last in filled;
        RestoreConserves(last, fx);
      }
    }
  }

  lemma FillPoints(w: World, fx: Fixture, saved: Saved)
    requires w.state.Durable? && w.filler.None? && w.fillLog.None? && w.freeInodes > 1
    ensures forall x | x in Fill(Checkpoint(w, saved), 0, fx.inodeLimit) ::
      FillPoint(x, Checkpoint(w, saved)) && Total(x) == Total(w)
  {
    var checkpoint := Checkpoint(w, saved);
    assert FilledTo(checkpoint, 0);
    FillConserves(checkpoint, 0, fx.inodeLimit);
  }

  lemma ApplyConserves(w: World, fx: Fixture, fault: Fault)
    ensures AllTotal(Apply(w, fx, fault).trace, Total(w))
  {
    hide Restore;
    hide ExhaustInodes;
    var plan := Prepare(w, fx, fault);
    if plan.Some? && w.state == Absent && CanCreate(w) {
      var saved := plan.value;
      var durable := UseInode(w).(state := Durable(NextIdentity(w), saved));
      if fault.InodeExhaustion? {
        ExhaustConserves(durable, fx, saved);
      } else {
        var injected := Inject(durable, saved);
        RestoreConserves(injected, fx);
      }
    }
  }

  /** Over every run of applies and restores, each cut off anywhere, free inodes
      plus the inodes the controller's files hold never change. So a host that is
      back to having none of those files has exactly its free inodes back. */
  lemma {:induction false} RunsConserveInodes(w: World, es: seq<Event>)
    ensures Total(AfterAll(w, es)) == Total(w)
    decreases |es|
  {
    if es == [] {
    } else {
      var e := es[0];
      var locked := Lock(w, e.fx, e.DoApply?);
      if locked.Some? {
        match e
        case DoApply(fx, fault, _) => ApplyConserves(locked.value, fx, fault);
        case DoRestore(fx, _) => RestoreConserves(locked.value, fx);
      }
      assert After(w, e) in EventTrace(w, e);
      RunsConserveInodes(After(w, e), es[1..]);
    }
  }

  /** Apply then restore of the inode fault, for every free count that apply's own
      guard lets through. With three or more free inodes apply leaves none free and
      restore gives back exactly the host it started from; with one or two, apply
      fails with no inode left, its state file stays, and restore refuses. */
  lemma InodeRoundTrip(w: World, fx: Fixture)
    requires Prepare(w, fx, InodeExhaustion).Some? && w.state == Absent
    ensures var a := Apply(w, fx, InodeExhaustion); var r := Restore(Last(a), fx);
      && Last(a).freeInodes == 0
      && (a.ok <==> w.freeInodes >= 3)
      && (r.ok <==> w.freeInodes >= 3)
      && (r.ok ==> Last(r) == w.(nextInode := Last(r).nextInode))
      && (!r.ok ==> r == Refused(Last(a)) && Last(a).state.Durable?)
  {
    InodePlan(w, fx);
    hide Prepare;
    hide Apply;
    hide Restore;
    if w.freeInodes >= 3 {
      InodeTrace(w, fx);
      var last := WholeFill(w, fx);
      hide ExhaustInodes;
      assert Last(Apply(w, fx, InodeExhaustion)) == last;
      InStepRestores(last, fx, w.freeInodes - 3);
      GivesBack(w, last, fx);
    } else {
      NoRoom(w, fx);
    }
  }

  /** One or two free inodes: the state file, then at most the directory, fit. */
  lemma NoRoom(w: World, fx: Fixture)
    requires Prepare(w, fx, InodeExhaustion).Some? && w.state == Absent && w.freeInodes < 3
    ensures var a := Apply(w, fx, InodeExhaustion);
      && !a.ok && Last(a).freeInodes == 0 && Last(a).state.Durable?
      && Restore(Last(a), fx) == Refused(Last(a))
  {
    InodePlan(w, fx);
  }

  /** What apply saves for the inode fault, and what its guard has established. */
  lemma InodePlan(w: World, fx: Fixture)
    requires Prepare(w, fx, InodeExhaustion).Some?
    ensures Prepare(w, fx, InodeExhaustion).value == SavedPlan(w, fx)
    ensures Inspect(w, fx).Some? && Writable(w) && w.filler.None? && w.fillLog.None?
    ensures 0 < w.freeInodes <= fx.inodeLimit
  {
  }

  function SavedPlan(w: World, fx: Fixture): Saved {
    Saved(InodeExhaustion, fx, None, Observation(w.mount, w.exports), None, None, None)
  }

  /** The world in which the state file has just become durable. */
  function Staged(w: World, fx: Fixture): (d: World)
    requires w.freeInodes > 0
    ensures d.state.Durable?
  {
    UseInode(w).(state := Durable(NextIdentity(w), SavedPlan(w, fx)))
  }

  /** The trace of an inode fault that finds room for its own three files. */
  lemma InodeTrace(w: World, fx: Fixture)
    requires Prepare(w, fx, InodeExhaustion).Some? && w.state == Absent && w.freeInodes >= 3
    ensures Apply(w, fx, InodeExhaustion).trace
         == [w, Staged(w, fx).(state := Torn(NextIdentity(w)))] + ExhaustInodes(Staged(w, fx), fx, SavedPlan(w, fx)).trace
    ensures Apply(w, fx, InodeExhaustion).ok == ExhaustInodes(Staged(w, fx), fx, SavedPlan(w, fx)).ok
  {
    InodePlan(w, fx);
    hide Prepare;
    hide ExhaustInodes;
    hide Restore;
  }

  /** Where the fill loop of a successful inode fault ends. */
  lemma WholeFill(w: World, fx: Fixture) returns (last: World)
    requires Prepare(w, fx, InodeExhaustion).Some? && w.state == Absent && w.freeInodes >= 3
    ensures var filled := Fill(Checkpoint(Staged(w, fx), SavedPlan(w, fx)), 0, fx.inodeLimit);
      var logged := LogMade(DirectoryMade(Staged(w, fx)));
      ExhaustInodes(Staged(w, fx), fx, SavedPlan(w, fx))
      == Run([Staged(w, fx), DirectoryMade(Staged(w, fx)), logged, logged.(state := Torn(NextIdentity(w)))] + filled, true)
      && last == filled[|filled| - 1]
    ensures FillPoint(last, Checkpoint(Staged(w, fx), SavedPlan(w, fx)))
    ensures last.freeInodes == 0 && FilledTo(last, w.freeInodes - 3) && Total(last) == Total(w)
  {
    InodePlan(w, fx);
    hide Prepare;
    hide Restore;
    var saved := SavedPlan(w, fx);
    var durable := Staged(w, fx);
    var checkpoint := Checkpoint(durable, saved);
    FillPoints(durable, fx, saved);
    assert FilledTo(checkpoint, 0);
    FillExhausts(checkpoint, 0, fx.inodeLimit);
    var filled := Fill(checkpoint, 0, fx.inodeLimit);
    last := filled[|filled| - 1];
    hide FilledTo;
    hide Fill;
    assert last in filled;
  }

  /** A restore that succeeds from a fill point returns the starting host. */
  lemma GivesBack(w: World, x: World, fx: Fixture)
    requires w.state == Absent && w.filler.None? && w.fillLog.None?
    requires Total(x) == Total(w)
    requires x == w.(state := x.state, filler := x.filler, fillLog := x.fillLog,
                     freeInodes := x.freeInodes, nextInode := x.nextInode)
    requires var r := Restore(x, fx);
      && r.ok
      && Last(r) == x.(state := Absent, filler := None, fillLog := None, freeInodes := Last(r).freeInodes)
    ensures Last(Restore(x, fx)) == w.(nextInode := x.nextInode)
  {
    var r := Restore(x, fx);
    RestoreConserves(x, fx);
    assert Last(r) in r.trace;
  }

  lemma InStepRestores(x: World, fx: Fixture, count: nat)
    requires FilledTo(x, count) && x.state.Durable? && Writable(x)
    requires var s := x.state.saved;
      && s.fault.InodeExhaustion? && s.fixture == fx && Inspect(x, fx) == Some(s.before)
      && s.fillerDirectory == Some(x.filler.value.id) && s.fillerLog == Some(x.fillLog.value.id)
    ensures var r := Restore(x, fx);
      && r.ok
      && Last(r) == x.(state := Absent, filler := None, fillLog := None, freeInodes := Last(r).freeInodes)
  {
    var records := x.fillLog.value.records;
    FreshName(x, count);
    assert OwnsFiller(x, x.state.saved);
    hide FilledTo;
    RestoreIsInodes(x, fx);
    hide Restore;
    UnlinkConserves(x, records);
    hide Unlink;
    hide OwnsFiller;
    hide Names;
    hide DistinctNames;
  }

  lemma RestoreIsInodes(x: World, fx: Fixture)
    requires x.state.Durable?
    requires var s := x.state.saved; s.fault.InodeExhaustion? && s.fixture == fx && Inspect(x, fx) == Some(s.before)
    ensures Restore(x, fx) == RestoreInodes(x, fx, x.state.saved)
  {
    hide RestoreInodes;
    hide ExpectedMount;
  }

  /** A crash of the inode fault is recoverable exactly when it fell where the
      state file names the filler and every filler file is logged. Then restore
      returns the host as it was; otherwise it unlinks nothing. */
  lemma InodeCrashPoints(w: World, fx: Fixture, x: World)
    requires Prepare(w, fx, InodeExhaustion).Some? && w.state == Absent && w.freeInodes >= 3
    requires x in Apply(w, fx, InodeExhaustion).trace
    ensures var r := Restore(x, fx);
      && (r.ok <==> x.state.Durable? && x.state.saved.fillerDirectory.Some? && InStep(x))
      && (r.ok ==> Last(r) == w.(nextInode := Last(r).nextInode))
      && (!r.ok ==> r == Refused(x))
  {
    hide Apply;
    hide ExhaustInodes;
    hide Restore;
    hide Fill;
    hide Prepare;
    hide FilledTo;
    InodePlan(w, fx);
    InodeTrace(w, fx);
    var last := WholeFill(w, fx);
    var durable, saved := Staged(w, fx), SavedPlan(w, fx);
    FillPoints(durable, fx, saved);
    if x in Fill(Checkpoint(durable, saved), 0, fx.inodeLimit) {
      if InStep(x) {
        InStepRestores(x, fx, |x.fillLog.value.records|);
        GivesBack(w, x, fx);
      } else {
        OutOfStep(x, fx);
      }
    } else {
      Unowned(x, fx);
    }
  }

  lemma Unowned(x: World, fx: Fixture)
    requires x.state.Durable? ==> x.state.saved.fault.InodeExhaustion? && x.state.saved.fillerDirectory.None?
    ensures Restore(x, fx) == Refused(x)
  {
  }

  lemma OwnedInStep(x: World)
    requires x.state.Durable? && OwnsFiller(x, x.state.saved)
    ensures InStep(x)
  {
    DistinctCount(x.fillLog.value.records);
    assert |x.filler.value.entries.Keys| == |x.filler.value.entries|;
  }

  lemma OutOfStep(x: World, fx: Fixture)
    requires x.state.Durable? && x.state.saved.fault.InodeExhaustion? && !InStep(x)
    ensures Restore(x, fx) == Refused(x)
  {
    if OwnsFiller(x, x.state.saved) { OwnedInStep(x); }
  }

  // ------------------------------------------------- crashes of the restore

  /** A crash of an inode restore that had begun: nothing it left is owned any more. */
  lemma {:induction false} UnlinkedUnowned(w: World, records: seq<Record>, saved: Saved, n: nat)
    requires w.filler.Some? && n < |Unlink(w, records)|
    requires w.fillLog.Some? && (n > 0 ==> records != [] && records[0] in w.fillLog.value.records)
    ensures var x := Unlink(w, records)[n];
      && x == w.(filler := x.filler, freeInodes := x.freeInodes)
      && (n > 0 ==> x.filler.Some? && records[0].name !in x.filler.value.entries && !OwnsFiller(x, saved))
    decreases |records|
  {
    if n > 0 {
      UnlinkedLacks(w, records, n, records[0].name);
      hide Unlink;
    }
  }

  /** Once a name is unlinked it stays so. */
  lemma {:induction false} UnlinkedLacks(w: World, records: seq<Record>, n: nat, name: string)
    requires w.filler.Some? && n < |Unlink(w, records)|
    requires name !in w.filler.value.entries || (n > 0 && records != [] && records[0].name == name)
    ensures var x := Unlink(w, records)[n];
      && x == w.(filler := x.filler, freeInodes := x.freeInodes)
      && x.filler.Some? && name !in x.filler.value.entries
    decreases |records|
  {
    if n > 0 {
      UnlinkedLacks(Dropped(w, records[0].name), records[1..], n - 1, name);
    }
  }

  /** Every crash point of an inode restore, but its starting point and its end, holds
      a state file for files it no longer accounts for. */
  lemma RestorePoints(w: World, fx: Fixture, x: World)
    requires w.state.Durable? && w.state.saved.fault.InodeExhaustion? && x in Restore(w, fx).trace
    ensures || x == w
            || x.state == Absent
            || (x.state == w.state && x.lockFile == w.lockFile && !OwnsFiller(x, w.state.saved))
  {
    hide Restore;
    hide RestoreInodes;
    hide OwnsFiller;
    hide Unlink;
    RestoreOfInodes(w, fx);
    if x != w && x.state != Absent {
      RestoreInodesPoints(w, fx, w.state.saved, x);
      PointUnowned(w, x);
    }
  }

  lemma PointUnowned(w: World, x: World)
    requires w.state.Durable? && OwnsFiller(w, w.state.saved) && x != w && x.state != Absent
    requires var unlinked := Unlink(w, w.fillLog.value.records);
      var settled := NoLog(NoDirectory(unlinked[|unlinked| - 1]));
      x in unlinked || x == NoDirectory(unlinked[|unlinked| - 1]) || x == settled
    ensures x.state == w.state && x.lockFile == w.lockFile && !OwnsFiller(x, w.state.saved)
  {
    var records := w.fillLog.value.records;
    var unlinked := Unlink(w, records);
    UnlinkedFrame(w, records);
    if x in unlinked {
      var n :| 0 <= n < |unlinked| && unlinked[n] == x;
      MoreThanOne(w, records, n);
      UnlinkedUnowned(w, records, w.state.saved, n);
      hide OwnsFiller;
    }
    hide Unlink;
  }

  lemma UnlinkedFrame(w: World, records: seq<Record>)
    requires w.filler.Some?
    ensures var t := Unlink(w, records); var last := t[|t| - 1];
      last == w.(filler := last.filler, freeInodes := last.freeInodes)
    decreases |records|
  {
    if records == [] {
    } else {
      UnlinkedFrame(Dropped(w, records[0].name), records[1..]);
    }
  }

  lemma MoreThanOne(w: World, records: seq<Record>, n: nat)
    requires w.filler.Some? && n < |Unlink(w, records)|
    ensures n > 0 ==> records != [] && records[0] in records
  {
  }

  /** A restore of the inode fault that crashes once it has unlinked anything, and
      before it removes the state file, is stuck: no later run of apply or restore,
      for any fixture, changes anything. */
  lemma CrashedRestoreSticks(w: World, fx: Fixture, x: World, es: seq<Event>)
    requires w.state.Durable? && w.state.saved.fault.InodeExhaustion? && w.lockFile
    requires x in Restore(w, fx).trace && x != w && x.state != Absent
    ensures AfterAll(x, es) == x
  {
    RestorePoints(w, fx, x);
    UnownedSticks(x, es);
  }

  /** A pending inode fault whose files are not all accounted for. */
  lemma {:induction false} UnownedSticks(x: World, es: seq<Event>)
    requires x.state.Durable? && x.state.saved.fault.InodeExhaustion? && x.lockFile && !OwnsFiller(x, x.state.saved)
    ensures AfterAll(x, es) == x
    decreases |es|
  {
    if es == [] {
    } else {
      UnownedEvent(x, es[0]);
      hide After;
      UnownedSticks(x, es[1..]);
    }
  }

  lemma UnownedEvent(x: World, e: Event)
    requires x.state.Durable? && x.state.saved.fault.InodeExhaustion? && x.lockFile && !OwnsFiller(x, x.state.saved)
    ensures After(x, e) == x
  {
    RestoreOfInodes(x, e.fx);
    hide Restore;
    hide OwnsFiller;
    hide ExhaustInodes;
    hide Prepare;
    hide Inspect;
    hide Inject;
  }
}
