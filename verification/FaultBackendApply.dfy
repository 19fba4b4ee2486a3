/** What apply and restore decide, on the fields of the host alone: exactly when apply
    succeeds, that it then has injected the fault, and exactly when an inode restore
    may unlink anything. */
module FaultBackendApply {
  import opened Text
  import opened FaultBackend
  import opened FaultBackendUndo
  import opened FaultBackendInodes

  /** The dedication proofs, field by field. */
  predicate Dedicated(w: World, fx: Fixture) {
    && w.dedicated
    && w.marker.namespace == fx.namespace && w.marker.nonce == fx.nonce && w.marker.uuid == fx.uuid
    && w.mount.uuid == fx.uuid && w.mount.target == fx.mountPath
    && (w.mount.fstype == "ext4" || w.mount.fstype == "xfs")
  }

  /** The export options map every client user to `uid`: no option repeats, all users
      are squashed, and the anonymous user is declared once as `uid`, or not at all and
      `uid` is the default one. */
  predicate Squashes(options: seq<string>, uid: nat) {
    && (forall i, j | 0 <= i < j < |options| :: options[i] != options[j])
    && "all_squash" in options && "no_all_squash" !in options
    && (|| (uid == 65534 && NoAnon(options))
        || (0 < uid <= 2147483647 && exists k | 0 <= k < |options| :: DeclaresAnon(options, k, uid)))
  }

  predicate NoAnon(options: seq<string>) { forall i | 0 <= i < |options| :: !("anonuid" <= options[i]) }

  predicate DeclaresAnon(options: seq<string>, k: nat, uid: nat) {
    && k < |options| && options[k] == "anonuid=" + Decimal(uid)
    && forall i | 0 <= i < |options| && i != k :: !("anonuid" <= options[i])
  }

  /** Everything apply asks of a host before it changes anything. */
  predicate Admissible(w: World, fx: Fixture, fault: Fault) {
    && Dedicated(w, fx)
    && |w.exports| == 1 && w.exports[0].client == fx.exportClient
    && "rw" in w.mount.options && "ro" !in w.mount.options
    && w.state == Absent && w.freeInodes > 0
    && match fault
       case ExportOutage => true
       case ReadOnly => true
       case QuotaExhaustion =>
         Squashes(w.exports[0].options, fx.quotaUid) && w.mount.fstype == "ext4" && "usrquota" in w.mount.options
       case InodeExhaustion => w.filler == None && w.fillLog == None && w.freeInodes <= fx.inodeLimit
       case Unsupported(_) => false
  }

  // ------------------------------------------------------- the squashed user

  lemma {:induction false} DistinctSet(options: seq<string>)
    ensures |set o | o in options| <= |options|
    ensures |set o | o in options| == |options| <==> forall i, j | 0 <= i < j < |options| :: options[i] != options[j]
  {
    if options == [] {
    } else {
      var n := |options| - 1;
      var init, last := options[..n], options[n];
      DistinctSet(init);
      assert forall i | 0 <= i < n :: init[i] == options[i];
      assert (set o | o in options) == (set o | o in init) + {last};
      if last in init {
        assert (set o | o in init) + {last} == (set o | o in init);
      }
    }
  }

  lemma {:induction false} DistinctCounts(options: seq<string>, o: string)
    requires forall i, j | 0 <= i < j < |options| :: options[i] != options[j]
    ensures multiset(options)[o] == if o in options then 1 else 0
  {
    if options == [] {
    } else {
      var n := |options| - 1;
      assert options == options[..n] + [options[n]];
      DistinctCounts(options[..n], o);
    }
  }

  lemma {:induction false} AnonAre(options: seq<string>)
    ensures AnonDeclarations(options) == [] <==> NoAnon(options)
    ensures |AnonDeclarations(options)| == 1 ==>
      exists k | 0 <= k < |options| :: options[k] == AnonDeclarations(options)[0] && OnlyAnon(options, k)
  {
    if options == [] {
    } else {
      var rest := options[1..];
      AnonAre(rest);
      assert forall i | 0 <= i < |rest| :: rest[i] == options[i + 1];
      var found := AnonDeclarations(rest);
      if "anonuid" <= options[0] {
        if found == [] { assert OnlyAnon(options, 0); }
      } else if |found| == 1 {
        var k :| 0 <= k < |rest| && rest[k] == found[0] && OnlyAnon(rest, k);
        assert options[k + 1] == found[0] && OnlyAnon(options, k + 1);
      }
    }
  }

  lemma {:induction false} AnonFound(options: seq<string>, k: nat)
    requires OnlyAnon(options, k)
    ensures AnonDeclarations(options) == [options[k]]
  {
    var rest := options[1..];
    assert forall i | 0 <= i < |rest| :: rest[i] == options[i + 1];
    if k == 0 {
      AnonAre(rest);
      assert NoAnon(rest);
    } else {
      AnonFound(rest, k - 1);
    }
  }

  predicate OnlyAnon(options: seq<string>, k: nat) {
    && k < |options| && "anonuid" <= options[k]
    && forall i | 0 <= i < |options| && i != k :: !("anonuid" <= options[i])
  }

  /** The declared form, read by its digits, is the printed uid. */
  lemma AnonUid(o: string, uid: nat)
    ensures AnonUidForm(o) && DecimalValue(o[8..]) == uid <==> uid > 0 && o == "anonuid=" + Decimal(uid)
  {
    if AnonUidForm(o) {
      DecimalOfValue(o[8..]);
      assert o == "anonuid=" + o[8..];
    }
    if uid > 0 && o == "anonuid=" + Decimal(uid) {
      assert o[8..] == Decimal(uid);
      ValueOfDecimal(uid);
    }
  }

  /** squashed_uid answers `uid` exactly for options that squash everyone to it. */
  lemma SquashedIff(options: seq<string>, uid: nat)
    ensures SquashedUid(options) == Some(uid) <==> Squashes(options, uid)
  {
    hide AnonUidForm;
    hide DecimalValue;
    hide Decimal;
    hide AnonDeclarations;
    DistinctSet(options);
    if forall i, j | 0 <= i < j < |options| :: options[i] != options[j] {
      DistinctCounts(options, "all_squash");
      AnonAre(options);
      AnonIff(options, uid);
    }
  }

  lemma AnonIff(options: seq<string>, uid: nat)
    ensures (exists k | 0 <= k < |options| :: DeclaresAnon(options, k, uid)) && uid > 0
       <==> var declared := AnonDeclarations(options);
            |declared| == 1 && AnonUidForm(declared[0]) && DecimalValue(declared[0][8..]) == uid
  {
    hide AnonUidForm;
    hide DecimalValue;
    hide Decimal;
    hide AnonDeclarations;
    AnonAre(options);
    var declared := AnonDeclarations(options);
    if |declared| == 1 {
      AnonUid(declared[0], uid);
      var k :| 0 <= k < |options| && options[k] == declared[0] && OnlyAnon(options, k);
      if declared[0] == "anonuid=" + Decimal(uid) {
        assert DeclaresAnon(options, k, uid);
      }
    }
    forall k | 0 <= k < |options| && DeclaresAnon(options, k, uid) && uid > 0
      ensures declared == ["anonuid=" + Decimal(uid)]
    {
      AnonFound(options, k);
      AnonUid(options[k], uid);
    }
  }

  // ------------------------------------------------------------------- apply

  /** What apply saves. */
  function SavedFor(w: World, fx: Fixture, fault: Fault): Saved {
    Saved(fault, fx, if fault.QuotaExhaustion? then Some(w.mount.source) else None, Observation(w.mount, w.exports),
          if fault.QuotaExhaustion? then Some(w.quota) else None, None, None)
  }

  lemma PrepareIff(w: World, fx: Fixture, fault: Fault)
    ensures Admissible(w, fx, fault) <==> Prepare(w, fx, fault).Some? && w.state == Absent && CanCreate(w)
    ensures Prepare(w, fx, fault).Some? ==> Prepare(w, fx, fault).value == SavedFor(w, fx, fault)
  {
    hide SquashedUid;
    hide Squashes;
    if |w.exports| == 1 { SquashedIff(w.exports[0].options, fx.quotaUid); }
  }

  /** Apply of a one-command fault succeeds exactly on an admissible host. Then the
      state file is durable and holds what was seen, and the host is exactly that fault
      away from where it was. On any other host nothing changes. */
  lemma ApplyIff(w: World, fx: Fixture, fault: Fault)
    requires !fault.InodeExhaustion?
    ensures var a := Apply(w, fx, fault);
      && (a.ok <==> Admissible(w, fx, fault))
      && (!a.ok ==> a.trace == [w])
      && (a.ok ==> |a.trace| == 4 && Current(Last(a)) == Faulted(Current(w), fault))
      && (a.ok ==> Last(a) == w.(mount := Last(a).mount, exports := Last(a).exports, quota := Last(a).quota,
                     state := Durable(Identity(w.device, w.nextInode), SavedFor(w, fx, fault)),
                     freeInodes := w.freeInodes - 1, nextInode := w.nextInode + 1))
  {
    PrepareIff(w, fx, fault);
    hide Prepare;
    hide Restore;
    if Admissible(w, fx, fault) {
      var saved := SavedFor(w, fx, fault);
      var durable := UseInode(w).(state := Durable(NextIdentity(w), saved));
      InjectFaults(durable, fx, saved);
      InjectOnly(durable, saved);
    }
    hide Inject;
    hide EffectObserved;
    hide Faulted;
    hide Admissible;
  }

  lemma InjectOnly(w: World, saved: Saved)
    ensures var x := Inject(w, saved); x == w.(mount := x.mount, exports := x.exports, quota := x.quota)
  {
  }

  /** The inode fault: apply changes nothing on a host that is not admissible, and
      succeeds exactly on one that is and has three free inodes. */
  lemma InodeApplyIff(w: World, fx: Fixture)
    ensures var a := Apply(w, fx, InodeExhaustion);
      && (a.ok <==> Admissible(w, fx, InodeExhaustion) && w.freeInodes >= 3)
      && (!Admissible(w, fx, InodeExhaustion) ==> a == Refused(w))
      && (a.ok ==> Last(a).freeInodes == 0 && Last(a).state.Durable? && Last(a).state.saved.fault == InodeExhaustion)
  {
    PrepareIff(w, fx, InodeExhaustion);
    if Admissible(w, fx, InodeExhaustion) {
      InodeRoundTrip(w, fx);
      if w.freeInodes >= 3 { FilledState(w, fx); }
    }
    hide Prepare;
    hide ExhaustInodes;
    hide Restore;
    hide Admissible;
  }

  lemma FilledState(w: World, fx: Fixture)
    requires Prepare(w, fx, InodeExhaustion).Some? && w.state == Absent && w.freeInodes >= 3
    ensures var last := Last(Apply(w, fx, InodeExhaustion));
      last.state.Durable? && last.state.saved.fault == InodeExhaustion
  {
    hide Prepare;
    hide Apply;
    InodeTrace(w, fx);
    var last := WholeFill(w, fx);
    hide ExhaustInodes;
    assert Last(Apply(w, fx, InodeExhaustion)) == last;
  }

  /** Both together, for every fault: where apply ends. */
  lemma Applies(w: World, fx: Fixture, fault: Fault)
    ensures var a := Apply(w, fx, fault);
      && (a.ok <==> Admissible(w, fx, fault) && (fault.InodeExhaustion? ==> w.freeInodes >= 3))
      && (a.ok ==> Last(a).state.Durable? && Last(a).state.saved.fault == fault)
      && (a.ok && !fault.InodeExhaustion? ==> Current(Last(a)) == Faulted(Current(w), fault))
      && (a.ok && fault.InodeExhaustion? ==> Last(a).freeInodes == 0)
      && (!Admissible(w, fx, fault) ==> Last(a) == w)
  {
    hide Apply;
    hide Admissible;
    hide Faulted;
    if fault.InodeExhaustion? { InodeApplyIff(w, fx); } else { ApplyIff(w, fx, fault); }
  }

  /** One whole invocation: the coordination file is there or can be made as well. */
  lemma WholeApply(w: World, fx: Fixture, fault: Fault, cut: nat)
    requires OneCommand(fault) && cut >= 4
    requires Admissible(w, fx, fault) && (w.lockFile || w.freeInodes > 1)
    ensures var x := After(w, DoApply(fx, fault, cut));
      Current(x) == Faulted(Current(w), fault) && x.state.Durable? && x.state.saved.fault == fault && x.lockFile
  {
    hide Apply;
    hide Faulted;
    var locked := if w.lockFile then w else UseInode(w).(lockFile := true);
    LockedAdmissible(w, fx, fault, locked);
    hide Admissible;
    ApplyIff(locked, fx, fault);
    hide Lock;
  }

  /** No invocation changes a host that is not proved dedicated, and none but an apply
      that can make the coordination file changes one without it. */
  lemma UnlockedUntouched(w: World, e: Event)
    requires !Dedicated(w, e.fx)
      || (!w.lockFile && (e.DoRestore? || "rw" !in w.mount.options || "ro" in w.mount.options || w.freeInodes == 0))
    ensures After(w, e) == w
  {
  }

  lemma LockedAdmissible(w: World, fx: Fixture, fault: Fault, locked: World)
    requires OneCommand(fault) && Admissible(w, fx, fault) && (w.lockFile || w.freeInodes > 1)
    requires locked == if w.lockFile then w else UseInode(w).(lockFile := true)
    ensures Lock(w, fx, true) == Some(locked) && Admissible(locked, fx, fault)
  {
    hide Squashes;
  }

  // ----------------------------------------------------------- inode restore

  /** What the state file says of the filler is what is on disk: directory and log by
      identity, the names of the one exactly those of the other, each once, decimal,
      and each a regular file of the logged identity. */
  predicate Accounted(w: World, saved: Saved) {
    && w.filler.Some? && w.fillLog.Some? && !w.fillLog.value.torn
    && saved.fillerDirectory == Some(w.filler.value.id) && saved.fillerLog == Some(w.fillLog.value.id)
    && var records, entries := w.fillLog.value.records, w.filler.value.entries;
    && (forall i, j | 0 <= i < j < |records| :: records[i].name != records[j].name)
    && (forall name | name in entries :: exists i | 0 <= i < |records| :: records[i].name == name)
    && forall i | 0 <= i < |records| ::
         && records[i].name in entries && entries[records[i].name] == Entry(records[i].id, true)
         && records[i].name != "" && AllDigits(records[i].name)
  }

  lemma OwnsIff(w: World, saved: Saved)
    ensures OwnsFiller(w, saved) <==> Accounted(w, saved)
  {
    if w.filler.Some? && w.fillLog.Some? {
      var records, entries := w.fillLog.value.records, w.filler.value.entries;
      if Accounted(w, saved) {
        assert entries.Keys == Names(records);
      }
      if OwnsFiller(w, saved) {
        forall name | name in entries ensures exists i | 0 <= i < |records| :: records[i].name == name {
          assert name in Names(records);
        }
      }
    }
  }

  /** An inode restore in a world anyone may have changed: it succeeds exactly when
      mount and exports are the saved ones and the filler is accounted for, and then
      gives back the inode of every file and leaves nothing; otherwise nothing at all
      is unlinked. */
  lemma InodeInterference(w: World, fx: Fixture)
    requires w.state.Durable? && w.state.saved.fault.InodeExhaustion?
    ensures var r, saved := Restore(w, fx), w.state.saved;
      && (r.ok <==> && Dedicated(w, fx) && saved.fixture == fx
                    && saved.before.mount == w.mount && saved.before.exports == w.exports
                    && "rw" in w.mount.options && "ro" !in w.mount.options && Accounted(w, saved))
      && (!r.ok ==> r.trace == [w])
      && (r.ok ==> Last(r) == w.(state := Absent, filler := None, fillLog := None,
                                 freeInodes := w.freeInodes + |w.filler.value.entries| + 3))
  {
    hide Accounted;
    hide Restore;
    var saved := w.state.saved;
    OwnsIff(w, saved);
    InodeGuards(w, fx);
    if Inspect(w, fx) == Some(saved.before) && saved.fixture == fx && OwnsFiller(w, saved) && Writable(w) {
      RestoreIsInodes(w, fx);
      WholeUnlink(w, fx, saved);
    }
    hide OwnsFiller;
    hide RestoreInodes;
  }

  /** Whatever one of restore's comparisons fails on, nothing changes. */
  lemma InodeGuards(w: World, fx: Fixture)
    requires w.state.Durable? && w.state.saved.fault.InodeExhaustion?
    ensures var saved := w.state.saved;
      Restore(w, fx) == Refused(w)
      || (Inspect(w, fx) == Some(saved.before) && saved.fixture == fx && OwnsFiller(w, saved) && Writable(w))
  {
    hide OwnsFiller;
    hide Settle;
    hide Unlink;
  }

  lemma WholeUnlink(w: World, fx: Fixture, saved: Saved)
    requires w.state.Durable? && Inspect(w, fx) == Some(saved.before) && OwnsFiller(w, saved) && Writable(w)
    ensures var r := RestoreInodes(w, fx, saved);
      r.ok && Last(r) == w.(state := Absent, filler := None, fillLog := None,
                            freeInodes := w.freeInodes + |w.filler.value.entries| + 3)
  {
    hide Unlink;
    UnlinkEnds(w, saved);
    hide OwnsFiller;
  }

  lemma UnlinkEnds(w: World, saved: Saved)
    requires OwnsFiller(w, saved)
    ensures var t := Unlink(w, w.fillLog.value.records);
      t[|t| - 1] == w.(filler := Some(Filler(w.filler.value.id, map[])), freeInodes := w.freeInodes + |w.filler.value.entries|)
  {
    hide OwnsFiller;
    OwnedNames(w, saved);
    UnlinkTo(w, w.fillLog.value.records);
  }

  lemma UnlinkTo(w: World, records: seq<Record>)
    requires w.filler.Some? && DistinctNames(records) && Names(records) == w.filler.value.entries.Keys
    ensures var t := Unlink(w, records);
      t[|t| - 1] == w.(filler := Some(Filler(w.filler.value.id, map[])), freeInodes := w.freeInodes + |w.filler.value.entries|)
  {
    hide Unlink;
    hide Total;
    hide Names;
    hide DistinctNames;
    UnlinkConserves(w, records);
    var t := Unlink(w, records);
    assert t[|t| - 1] in t;
    EmptiedFree(w, t[|t| - 1]);
  }

  lemma OwnedNames(w: World, saved: Saved)
    requires OwnsFiller(w, saved)
    ensures w.filler.Some? && w.fillLog.Some?
    ensures DistinctNames(w.fillLog.value.records) && Names(w.fillLog.value.records) == w.filler.value.entries.Keys
  {
  }

  lemma EmptiedFree(w: World, emptied: World)
    requires w.filler.Some? && emptied == w.(filler := Some(Filler(w.filler.value.id, map[])), freeInodes := emptied.freeInodes)
    requires Total(emptied) == Total(w)
    ensures emptied.freeInodes == w.freeInodes + |w.filler.value.entries|
  {
  }
}
