/** Crash-safe undo: over every sequence of apply and restore runs, each cut off
    after any durable change, one whole restore puts everything back. */
module FaultBackendUndo {
  import opened Text
  import opened FaultBackend

  /** What the mount, the exports and the quota were before any fault. */
  datatype Baseline = Baseline(mount: Mount, exports: seq<Export>, quota: Quota)

  function Current(w: World): Baseline { Baseline(w.mount, w.exports, w.quota) }

  predicate OneCommand(f: Fault) { f.ExportOutage? || f.ReadOnly? || f.QuotaExhaustion? }

  /** The baseline with one fault injected, written out fault by fault. */
  function Faulted(b: Baseline, f: Fault): Baseline {
    match f
    case ExportOutage => b.(exports := [])
    case ReadOnly => b.(mount := b.mount.(options := b.mount.options[RW := 0][RO := b.mount.options[RW]]))
    case QuotaExhaustion => b.(quota := b.quota.(blockHard := ExhaustedLimit(b.quota.space), blockSoft := 0))
    case _ => b
  }

  /** What apply saves when it starts from the baseline. */
  predicate SavedFrom(saved: Saved, b: Baseline) {
    && !saved.fault.Unsupported?
    && saved.before == Observation(b.mount, b.exports)
    && |b.exports| == 1 && b.exports[0].client == saved.fixture.exportClient
    && RW in b.mount.options && RO !in b.mount.options
    && (saved.fault.QuotaExhaustion? ==> saved.quota == Some(b.quota))
  }

  /** The invariant of every run. With no whole state file, or one for the inode
      fault, the host is at its baseline; with one for another fault, it is at
      its baseline or exactly that fault away from it. */
  predicate Recoverable(w: World, b: Baseline) {
    match w.state
    case Absent => Current(w) == b
    case Torn(_) => Current(w) == b && w.lockFile
    case Durable(_, saved) =>
      && w.lockFile && Inspect(w, saved.fixture).Some? && SavedFrom(saved, b)
      && (Current(w) == b || (OneCommand(saved.fault) && Current(w) == Faulted(b, saved.fault)))
  }

  predicate AllRecoverable(t: seq<World>, b: Baseline) { forall x | x in t :: Recoverable(x, b) }

  lemma RemountBack(options: multiset<string>)
    requires RW in options && RO !in options
    ensures Remount(options, RW, RO) == options[RW := 0][RO := options[RW]]
    ensures Remount(Remount(options, RW, RO), RO, RW) == options
    ensures Remount(options, RO, RW) == options
    ensures RO in Remount(options, RW, RO) && RW !in Remount(options, RW, RO)
  {
  }

  lemma ReexportBack(before: Export)
    ensures Reexport([], before) == [before]
    ensures Reexport([before], before) == [before]
    ensures Unexport([before], before.client) == []
  {
  }

  /** A faulted host passes the effect check, and is where `Faulted` says. */
  lemma InjectFaults(w: World, fx: Fixture, saved: Saved)
    requires Inspect(w, fx).Some? && saved.fixture == fx
    requires SavedFrom(saved, Current(w)) && OneCommand(saved.fault)
    ensures Current(Inject(w, saved)) == Faulted(Current(w), saved.fault)
    ensures Inject(w, saved).state == w.state
    ensures EffectObserved(Inject(w, saved), fx, saved)
  {
    if saved.fault.ReadOnly? { RemountBack(w.mount.options); }
    if saved.fault.ExportOutage? {
      assert w.exports == [w.exports[0]];
      ReexportBack(w.exports[0]);
    }
  }

  /** Restore of a one-command fault, from a host at or one fault away from the
      baseline: three worlds, ending at the baseline without the state file. */
  lemma RestoreUndoes(w: World, fx: Fixture, b: Baseline)
    requires w.state.Durable? && OneCommand(w.state.saved.fault) && Recoverable(w, b)
    requires Inspect(w, fx).Some? && w.state.saved.fixture == fx
    ensures var r := Restore(w, fx);
      && r.ok && |r.trace| == 3
      && Current(r.trace[1]) == b && r.trace[1].state == w.state
      && r.trace[2] == r.trace[1].(state := Absent, freeInodes := w.freeInodes + 1)
  {
    var saved := w.state.saved;
    RemountBack(b.mount.options);
    assert b.exports == [b.exports[0]];
    ReexportBack(b.exports[0]);
    assert ExpectedMount(saved) == (if saved.fault.ReadOnly? then Faulted(b, saved.fault).mount else b.mount);
  }

  lemma RestoreKeeps(w: World, fx: Fixture, b: Baseline)
    requires Recoverable(w, b)
    ensures AllRecoverable(Restore(w, fx).trace, b)
  {
    if w.state.Durable? && Inspect(w, fx).Some? && w.state.saved.fixture == fx {
      if OneCommand(w.state.saved.fault) {
        RestoreUndoes(w, fx, b);
      } else {
        RestoreInodesKeeps(w, fx, b);
      }
    }
  }

  /** What recoverability looks at. */
  predicate SameParts(w: World, x: World) {
    && Current(x) == Current(w) && x.lockFile == w.lockFile
    && x.dedicated == w.dedicated && x.marker == w.marker
  }

  lemma SamePartsKeep(w: World, x: World, b: Baseline)
    requires Recoverable(w, b) && SameParts(w, x)
    requires x.state == w.state || (w.state.Durable? && Current(w) == b && (x.state.Absent? || x.state.Torn?))
    ensures Recoverable(x, b)
  {
    hide SavedFrom;
    hide Faulted;
  }

  /** Restoring the inode fault never leaves the baseline. */
  lemma RestoreInodesKeeps(w: World, fx: Fixture, b: Baseline)
    requires Recoverable(w, b) && w.state.Durable? && w.state.saved.fault.InodeExhaustion?
    ensures AllRecoverable(Restore(w, fx).trace, b)
  {
    RestoreOfInodes(w, fx);
    hide Restore;
    hide RestoreInodes;
    AtBaseline(w, b);
    forall x | x in Restore(w, fx).trace ensures Recoverable(x, b) {
      if x != w {
        RestoreInodesPoints(w, fx, w.state.saved, x);
        InodePointKeeps(w, x, b);
      }
    }
  }

  lemma InodePointKeeps(w: World, x: World, b: Baseline)
    requires Recoverable(w, b) && w.state.Durable? && Current(w) == b && w.filler.Some? && w.fillLog.Some?
    requires var unlinked := Unlink(w, w.fillLog.value.records);
      var settled := NoLog(NoDirectory(unlinked[|unlinked| - 1]));
      x in unlinked || x == NoDirectory(unlinked[|unlinked| - 1]) || x == settled
      || x == settled.(state := Absent, freeInodes := settled.freeInodes + 1)
    ensures Recoverable(x, b)
  {
    hide Recoverable;
    UnlinkKeeps(w, w.fillLog.value.records, b);
    hide Unlink;
    if x !in Unlink(w, w.fillLog.value.records) {
      SamePartsKeep(w, x, b);
    }
  }

  lemma {:induction false} UnlinkKeeps(w: World, records: seq<Record>, b: Baseline)
    requires w.filler.Some? && Recoverable(w, b)
    ensures AllRecoverable(Unlink(w, records), b)
    ensures var t := Unlink(w, records);
      t[|t| - 1] == w.(filler := t[|t| - 1].filler, freeInodes := t[|t| - 1].freeInodes)
    decreases |records|
  {
    if records == [] {
    } else {
      var filler := w.filler.value;
      hide Recoverable;
      SamePartsKeep(w, w.(filler := Some(filler.(entries := filler.entries - {records[0].name})),
                          freeInodes := w.freeInodes + 1), b);
      UnlinkKeeps(w.(filler := Some(filler.(entries := filler.entries - {records[0].name})),
                     freeInodes := w.freeInodes + 1), records[1..], b);
    }
  }

  lemma {:induction false} FillKeeps(w: World, index: nat, limit: nat, b: Baseline)
    requires w.filler.Some? && w.fillLog.Some? && Recoverable(w, b)
    ensures AllRecoverable(Fill(w, index, limit), b)
    decreases limit - index
  {
    if index < limit && CanCreate(w) {
      SamePartsKeep(w, Created(w, index), b);
      SamePartsKeep(w, HalfLogged(w, index), b);
      SamePartsKeep(w, Logged(w, index), b);
      hide Recoverable;
      hide Created;
      hide Logged;
      FillKeeps(Logged(w, index), index + 1, limit, b);
    }
  }

  lemma ExhaustKeeps(w: World, fx: Fixture, b: Baseline)
    requires w.state.Durable? && w.state.saved.fault.InodeExhaustion? && Recoverable(w, b)
    ensures AllRecoverable(ExhaustInodes(w, fx, w.state.saved).trace, b)
  {
    hide Restore;
    hide Fill;
    hide Recoverable;
    AtBaseline(w, b);
    if !CanCreate(w) {
      RestoreKeeps(w, fx, b);
    } else if !CanCreate(DirectoryMade(w)) {
      SamePartsKeep(w, DirectoryMade(w), b);
      RestoreKeeps(DirectoryMade(w), fx, b);
    } else {
      var logged := LogMade(DirectoryMade(w));
      SamePartsKeep(w, DirectoryMade(w), b);
      SamePartsKeep(w, logged, b);
      SamePartsKeep(w, logged.(state := Torn(w.state.id)), b);
      var checkpoint := Checkpoint(w, w.state.saved);
      CheckpointKeeps(w, b);
      hide Checkpoint;
      FillKeeps(checkpoint, 0, fx.inodeLimit, b);
      var filled := Fill(checkpoint, 0, fx.inodeLimit);
      var last := filled[|filled| - 1];
      assert last in filled;
      RestoreKeeps(last, fx, b);
    }
  }

  lemma AtBaseline(w: World, b: Baseline)
    requires w.state.Durable? && w.state.saved.fault.InodeExhaustion? && Recoverable(w, b)
    ensures Current(w) == b
  {
    hide SavedFrom;
  }

  lemma CheckpointKeeps(w: World, b: Baseline)
    requires w.state.Durable? && w.state.saved.fault.InodeExhaustion? && Recoverable(w, b) && w.freeInodes > 1
    ensures Recoverable(Checkpoint(w, w.state.saved), b)
  {
    hide Faulted;
  }

  lemma ApplyKeeps(w: World, fx: Fixture, fault: Fault, b: Baseline)
    requires Recoverable(w, b) && w.lockFile
    ensures AllRecoverable(Apply(w, fx, fault).trace, b)
  {
    var plan := Prepare(w, fx, fault);
    if plan.Some? && w.state == Absent && CanCreate(w) {
      var saved := plan.value;
      var id := NextIdentity(w);
      var durable := UseInode(w).(state := Durable(id, saved));
      assert Recoverable(durable, b);
      if fault.InodeExhaustion? {
        ExhaustKeeps(durable, fx, b);
      } else {
        InjectFaults(durable, fx, saved);
      }
    }
  }

  lemma EventKeeps(w: World, e: Event, b: Baseline)
    requires Recoverable(w, b)
    ensures AllRecoverable(EventTrace(w, e), b)
  {
    var locked := Lock(w, e.fx, e.DoApply?);
    if locked.Some? {
      assert Recoverable(locked.value, b);
      match e
      case DoApply(fx, fault, _) => ApplyKeeps(locked.value, fx, fault, b);
      case DoRestore(fx, _) => RestoreKeeps(locked.value, fx, b);
    }
  }

  /** Every reachable world is recoverable, whatever runs were made and wherever
      each of them was cut off. */
  lemma {:induction false} RunsStayRecoverable(w: World, es: seq<Event>, b: Baseline)
    requires Recoverable(w, b)
    ensures Recoverable(AfterAll(w, es), b)
    decreases |es|
  {
    if es == [] {
    } else {
      EventKeeps(w, es[0], b);
      assert After(w, es[0]) in EventTrace(w, es[0]);
      RunsStayRecoverable(After(w, es[0]), es[1..], b);
    }
  }

  /** What one whole restore does in a recoverable world, for every fixture it is
      given: it succeeds exactly when the state file is whole, is this fixture's,
      and the fault is a one-command fault or an inode fault whose files are all
      accounted for. Success is the baseline with no state file; failure changes
      nothing. */
  lemma RestoreOutcome(w: World, fx: Fixture, b: Baseline)
    requires Recoverable(w, b)
    ensures var r := Restore(w, fx);
      && (r.ok <==> w.state.Durable? && w.state.saved.fixture == fx
                    && (OneCommand(w.state.saved.fault) || OwnsFiller(w, w.state.saved)))
      && (r.ok ==> Current(Last(r)) == b && Last(r).state == Absent)
      && (!r.ok ==> r.trace == [w])
  {
    if w.state.Durable? && w.state.saved.fixture == fx {
      if OneCommand(w.state.saved.fault) {
        RestoreUndoes(w, fx, b);
      } else if OwnsFiller(w, w.state.saved) {
        UnlinkKeeps(w, w.fillLog.value.records, b);
      }
    }
  }

  /** Crash-safe undo. Start from any host without a fault state file; make any
      runs of apply and restore, for any fixtures and faults, each cut off after
      any number of durable changes. If a whole state file for one of the three
      one-command faults is pending, one restore with that file's fixture that
      runs to its end returns the mount, the exports and the quota to what they
      were at the start and removes the state file. Until then every apply is
      refused without a change. */
  lemma CrashSafeUndo(start: World, es: seq<Event>, cut: nat)
    requires start.state == Absent
    ensures var w := AfterAll(start, es);
      && (w.state != Absent ==> forall fx, fault :: Apply(w, fx, fault) == Refused(w))
      && (w.state.Durable? && OneCommand(w.state.saved.fault) && cut >= 3 ==>
            var done := After(w, DoRestore(w.state.saved.fixture, cut));
            Current(done) == Current(start) && done.state == Absent)
  {
    hide AfterAll;
    hide Apply;
    var w := AfterAll(start, es);
    RunsStayRecoverable(start, es, Current(start)) by { StartsRecoverable(start); }
    PendingRefused(w);
    if w.state.Durable? && OneCommand(w.state.saved.fault) && cut >= 3 {
      WholeRestore(w, Current(start), cut);
    }
    hide After;
    hide Recoverable;
  }

  lemma WholeRestore(w: World, b: Baseline, cut: nat)
    requires w.state.Durable? && OneCommand(w.state.saved.fault) && Recoverable(w, b) && cut >= 3
    ensures var done := After(w, DoRestore(w.state.saved.fixture, cut)); Current(done) == b && done.state == Absent
  {
    hide Restore;
    hide Inspect;
    hide OneCommand;
    LockedInspects(w, b);
    hide Recoverable;
    RestoreUndoes(w, w.state.saved.fixture, b);
  }

  lemma StartsRecoverable(start: World)
    requires start.state == Absent
    ensures Recoverable(start, Current(start))
  {
  }

  lemma PendingRefused(w: World)
    ensures w.state != Absent ==> forall fx, fault :: Apply(w, fx, fault) == Refused(w)
  {
    hide Prepare;
    hide ExhaustInodes;
    hide Restore;
    hide Inject;
  }

  lemma LockedInspects(w: World, b: Baseline)
    requires w.state.Durable? && Recoverable(w, b)
    ensures w.lockFile && Inspect(w, w.state.saved.fixture).Some?
  {
  }

  /** A host nobody can recover through the controller: a crash while the state
      file was being written leaves it torn, and no later run changes anything.
      The fault itself was not applied. */
  lemma {:induction false} TornStays(w: World, es: seq<Event>, b: Baseline)
    requires Recoverable(w, b) && w.state.Torn?
    ensures AfterAll(w, es) == w && Current(w) == b
    decreases |es|
  {
    if es == [] {
    } else {
      TornEvent(w, es[0]);
      hide After;
      TornStays(w, es[1..], b);
    }
  }

  /** Such a host is reached: whenever apply can write its state file at all, a crash
      after its second durable change leaves the file torn. */
  lemma TornReached(w: World, fx: Fixture, fault: Fault)
    requires Prepare(w, fx, fault).Some? && w.state == Absent && CanCreate(w) && w.lockFile
    ensures After(w, DoApply(fx, fault, 2)).state.Torn?
  {
    hide ExhaustInodes;
    hide Restore;
    hide Inject;
    hide EffectObserved;
    assert Inspect(w, fx).Some?;
    hide SquashedUid;
  }

  function TornFixture(): Fixture { Fixture("/srv", "ns", "n", "u", "client", 1000, 8, "run") }

  /** A dedicated host with room for the state file. */
  function TornHost(): World {
    World(true, Marker("ns", "n", "u"), Mount("/srv", "/dev/sdb", "u", "ext4", multiset{RW}), [Export("client", [])],
          Quota(0, 0, 0, 0, 0, 0, 0, 0, 0), true, Absent, None, None, 1, 8, 1)
  }

  /** One concrete host and run that end in that state for good. */
  lemma TornExample(es: seq<Event>)
    ensures var torn := After(TornHost(), DoApply(TornFixture(), ReadOnly, 2));
      torn.state.Torn? && AfterAll(torn, es) == torn && Current(torn) == Current(TornHost())
  {
    var w, fx := TornHost(), TornFixture();
    assert Prepare(w, fx, ReadOnly).Some?;
    TornReached(w, fx, ReadOnly);
    var torn := After(w, DoApply(fx, ReadOnly, 2));
    RunsStayRecoverable(w, [DoApply(fx, ReadOnly, 2)], Current(w));
    OneEvent(w, DoApply(fx, ReadOnly, 2));
    hide After;
    TornStays(torn, es, Current(w));
  }

  lemma OneEvent(w: World, e: Event)
    ensures AfterAll(w, [e]) == After(w, e)
  {
    hide After;
    assert [e][1..] == [];
    assert AfterAll(After(w, e), []) == After(w, e);
  }

  lemma TornEvent(w: World, e: Event)
    requires w.state.Torn? && w.lockFile
    ensures After(w, e) == w
  {
    PendingRefused(w);
    hide Apply;
    hide Inspect;
  }

  /** Restore in a world anyone may have changed. For a state file that apply
      wrote, restore succeeds exactly when what it looks at is the saved value or
      the injected one, and then puts the saved values back; otherwise it refuses
      and changes nothing. */
  lemma InterferenceRefused(w: World, fx: Fixture, b: Baseline)
    requires w.state.Durable? && OneCommand(w.state.saved.fault) && SavedFrom(w.state.saved, b)
    ensures var r, saved := Restore(w, fx), w.state.saved;
      && (r.ok <==> Inspect(w, fx).Some? && saved.fixture == fx && WithinFault(w, saved.fault, b))
      && (!r.ok ==> r == Refused(w))
      && (r.ok ==> Last(r) == w.(mount := b.mount, exports := b.exports, state := Absent,
                                 freeInodes := w.freeInodes + 1, quota := Last(r).quota))
      && (r.ok ==> Last(r).quota == if saved.fault.QuotaExhaustion?
                                    then SetBlockLimits(w.quota, b.quota.blockHard, b.quota.blockSoft) else w.quota)
  {
    match w.state.saved.fault {
      case ExportOutage => ExportInterference(w, fx, b);
      case ReadOnly => ReadOnlyInterference(w, fx, b);
      case QuotaExhaustion => QuotaInterference(w, fx, b);
    }
    hide Restore;
    hide Inspect;
    hide WithinFault;
  }

  /** What restore does, as the lemma above states it. */
  predicate Judges(w: World, fx: Fixture, b: Baseline, quota: Quota)
    requires w.state.Durable?
  {
    var r := Restore(w, fx);
    && (r.ok <==> Inspect(w, fx).Some? && w.state.saved.fixture == fx && WithinFault(w, w.state.saved.fault, b))
    && (!r.ok ==> r == Refused(w))
    && (r.ok ==> Last(r) == w.(mount := b.mount, exports := b.exports, state := Absent,
                               freeInodes := w.freeInodes + 1, quota := quota))
  }

  lemma ExportInterference(w: World, fx: Fixture, b: Baseline)
    requires w.state.Durable? && w.state.saved.fault.ExportOutage? && SavedFrom(w.state.saved, b)
    ensures Judges(w, fx, b, w.quota)
  {
    assert b.exports == [b.exports[0]];
    ReexportBack(b.exports[0]);
    hide Reexport;
  }

  lemma ReadOnlyInterference(w: World, fx: Fixture, b: Baseline)
    requires w.state.Durable? && w.state.saved.fault.ReadOnly? && SavedFrom(w.state.saved, b)
    ensures Judges(w, fx, b, w.quota)
  {
    hide Remount;
    RemountBack(b.mount.options);
    var faulted := Faulted(b, ReadOnly).mount;
    assert ExpectedMount(w.state.saved) == faulted && faulted.options == Remount(b.mount.options, RW, RO);
    hide Faulted;
  }

  lemma QuotaInterference(w: World, fx: Fixture, b: Baseline)
    requires w.state.Durable? && w.state.saved.fault.QuotaExhaustion? && SavedFrom(w.state.saved, b)
    ensures Judges(w, fx, b, SetBlockLimits(w.quota, b.quota.blockHard, b.quota.blockSoft))
  {
    hide ExhaustedLimit;
  }

  /** Each part restore compares is at its saved value or at its injected one. */
  predicate WithinFault(w: World, f: Fault, b: Baseline) {
    var injected := Faulted(b, f);
    && (w.mount == b.mount || w.mount == injected.mount)
    && (w.exports == b.exports || w.exports == injected.exports)
    && (f.QuotaExhaustion? ==>
          (w.quota.blockHard, w.quota.blockSoft) in
            {(b.quota.blockHard, b.quota.blockSoft), (injected.quota.blockHard, injected.quota.blockSoft)})
  }

  /** The injected hard limit is never the kernel's "no limit", covers what is
      already used, and leaves less than one block free unless nothing is used. */
  lemma ExhaustedLimitTight(space: nat)
    ensures var limit := ExhaustedLimit(space);
      && limit > 0 && space <= limit * 1024
      && (space > 0 ==> limit * 1024 < space + 1024)
      && (space == 0 ==> limit == 1)
  {
  }
}
