/** The disposable-backend fault controller (scripts/_storage_fault_backend.py):
    save the state durably, inject one fault, undo it later.

    The controlled host is a `World` value. One run of `apply` or `restore` is a
    `Run`: the worlds it leaves behind after each durable change, first to last,
    and whether it returned normally. A crash leaves any world of the trace. */
module FaultBackend {
  import opened Text

  datatype Fault =
    | ExportOutage
    | ReadOnly
    | QuotaExhaustion
    | InodeExhaustion
    | Unsupported(name: string)

  datatype Fixture = Fixture(
    mountPath: string, namespace: string, nonce: string, uuid: string,
    exportClient: string, quotaUid: nat, inodeLimit: nat, runId: string)

  datatype Marker = Marker(namespace: string, nonce: string, uuid: string)

  /** A findmnt row. The controller sorts the comma-separated options before it
      compares rows, so they are a multiset here. */
  datatype Mount = Mount(target: string, source: string, uuid: string, fstype: string, options: multiset<string>)

  /** One line of `exportfs -s` for the mount, with its option list. */
  datatype Export = Export(client: string, options: seq<string>)

  datatype Quota = Quota(
    blockHard: nat, blockSoft: nat, space: nat,
    inodeHard: nat, inodeSoft: nat, inodes: nat, blockTime: nat, inodeTime: nat, valid: nat)

  datatype Observation = Observation(mount: Mount, exports: seq<Export>)

  datatype Identity = Identity(device: nat, inode: nat)

  /** The contents of the fault state file. */
  datatype Saved = Saved(
    fault: Fault, fixture: Fixture, device: Option<string>, before: Observation, quota: Option<Quota>,
    fillerDirectory: Option<Identity>, fillerLog: Option<Identity>)

  /** `Torn` is a state file that exists and does not hold a whole JSON text. */
  datatype StateFile = Absent | Torn(id: Identity) | Durable(id: Identity, saved: Saved)

  datatype Entry = Entry(id: Identity, regular: bool)

  datatype Filler = Filler(id: Identity, entries: map<string, Entry>)

  datatype Record = Record(name: string, id: Identity)

  /** The ownership log; `torn` marks a last line that was not wholly written. */
  datatype FillLog = FillLog(id: Identity, records: seq<Record>, torn: bool)

  datatype World = World(
    dedicated: bool,              // every dedication proof of inspect other than the ones below
    marker: Marker,
    mount: Mount,
    exports: seq<Export>,
    quota: Quota,
    lockFile: bool,
    state: StateFile,
    filler: Option<Filler>,
    fillLog: Option<FillLog>,
    device: nat,
    freeInodes: nat,
    nextInode: nat)

  datatype Run = Run(trace: seq<World>, ok: bool)

  const RW := "rw"
  const RO := "ro"

  function Refused(w: World): Run { Run([w], false) }

  function Last(r: Run): World
    requires r.trace != []
  {
    r.trace[|r.trace| - 1]
  }

  // ------------------------------------------------------------ the host's parts

  function Inspect(w: World, fx: Fixture): Option<Observation> {
    if w.dedicated && w.marker == Marker(fx.namespace, fx.nonce, fx.uuid)
       && w.mount.uuid == fx.uuid && w.mount.target == fx.mountPath && w.mount.fstype in {"ext4", "xfs"}
    then Some(Observation(w.mount, w.exports))
    else None
  }

  predicate Writable(w: World) { RW in w.mount.options && RO !in w.mount.options }

  /** A new file or directory can be made on the mount. */
  predicate CanCreate(w: World) { Writable(w) && w.freeInodes > 0 }

  /** The inode the next created file gets. */
  function NextIdentity(w: World): Identity { Identity(w.device, w.nextInode) }

  function UseInode(w: World): World
    requires w.freeInodes > 0
  {
    w.(freeInodes := w.freeInodes - 1, nextInode := w.nextInode + 1)
  }

  /** `mount -o remount,<to>`: the `from` flag becomes the `to` flag. */
  function Remount(options: multiset<string>, from: string, to: string): multiset<string>
  {
    if from == to then options else options[to := options[to] + options[from]][from := 0]
  }

  function Unexport(exports: seq<Export>, client: string): seq<Export> {
    if exports == [] then []
    else if exports[0].client == client then Unexport(exports[1..], client)
    else [exports[0]] + Unexport(exports[1..], client)
  }

  /** `exportfs -i -o options client:path`: replaces the client's export or adds one. */
  function Reexport(exports: seq<Export>, entry: Export): seq<Export> {
    if exports == [] then [entry]
    else if exports[0].client == entry.client then [entry] + exports[1..]
    else [exports[0]] + Reexport(exports[1..], entry)
  }

  /** Q_SETQUOTA with the block-limits bit: the two block limits change and nothing else. */
  function SetBlockLimits(q: Quota, hard: nat, soft: nat): Quota {
    q.(blockHard := hard, blockSoft := soft)
  }

  /** The hard limit that exhausts the quota, in KiB blocks. */
  function ExhaustedLimit(space: nat): nat {
    var blocks := (space + 1023) / 1024;
    if blocks > 1 then blocks else 1
  }

  function SquashedUid(options: seq<string>): Option<nat>
  {
    if |options| != |set o | o in options| || multiset(options)["all_squash"] != 1 || "no_all_squash" in options then None
    else
      var declared := AnonDeclarations(options);
      if declared == [] then Some(65534)
      else if |declared| != 1 || !AnonUidForm(declared[0]) then None
      else
        var value := DecimalValue(declared[0][8..]);
        if value > 2147483647 then None else Some(value)
  }

  function AnonDeclarations(options: seq<string>): seq<string> {
    if options == [] then []
    else (if "anonuid" <= options[0] then [options[0]] else []) + AnonDeclarations(options[1..])
  }

  /** anonuid=[1-9][0-9]* */
  predicate AnonUidForm(o: string) {
    "anonuid=" <= o && |o| > 8 && AllDigits(o[8..]) && o[8] != '0'
  }

  // ------------------------------------------------------------------- apply

  /** Every check of apply that runs before the state file is made. */
  function Prepare(w: World, fx: Fixture, fault: Fault): Option<Saved>
  {
    match Inspect(w, fx)
    case None => None
    case Some(seen) =>
      var options := seen.mount.options;
      var saved := Saved(fault, fx, None, seen, None, None, None);
      if fault.Unsupported? then None
      else if |seen.exports| != 1 || seen.exports[0].client != fx.exportClient then None
      else if RW !in options || RO in options then None
      else if fault.QuotaExhaustion? then
        if SquashedUid(seen.exports[0].options) != Some(fx.quotaUid) then None
        else if seen.mount.fstype != "ext4" || "usrquota" !in options then None
        else Some(saved.(device := Some(seen.mount.source), quota := Some(w.quota)))
      else if fault.InodeExhaustion? then
        if w.filler.Some? || w.fillLog.Some? then None
        else if w.freeInodes == 0 || w.freeInodes > fx.inodeLimit then None
        else Some(saved)
      else Some(saved)
  }

  /** The fault itself, for the three faults that are one control command. */
  function Inject(w: World, saved: Saved): World {
    match saved.fault
    case ExportOutage => w.(exports := Unexport(w.exports, saved.fixture.exportClient))
    case ReadOnly => w.(mount := w.mount.(options := Remount(w.mount.options, RW, RO)))
    case QuotaExhaustion =>
      if saved.quota.Some? then w.(quota := SetBlockLimits(w.quota, ExhaustedLimit(saved.quota.value.space), 0)) else w
    case _ => w
  }

  /** The effect check at the end of apply. */
  predicate EffectObserved(w: World, fx: Fixture, saved: Saved) {
    match Inspect(w, fx)
    case None => false
    case Some(effect) =>
      match saved.fault
      case ExportOutage => effect.exports == []
      case ReadOnly => RO in effect.mount.options && RW !in effect.mount.options
      case QuotaExhaustion =>
        saved.quota.Some? && w.quota.blockHard == ExhaustedLimit(saved.quota.value.space) && w.quota.blockSoft == 0
      case _ => true
  }

  function Apply(w: World, fx: Fixture, fault: Fault): (r: Run)
    ensures r.trace != [] && r.trace[0] == w
  {
    match Prepare(w, fx, fault)
    case None => Refused(w)
    case Some(saved) =>
      if w.state != Absent || !CanCreate(w) then Refused(w)
      else
        var id := NextIdentity(w);
        var torn := UseInode(w).(state := Torn(id));
        var durable := torn.(state := Durable(id, saved));
        if fault.InodeExhaustion? then
          var body := ExhaustInodes(durable, fx, saved);
          Run([w, torn] + body.trace, body.ok)
        else
          var injected := Inject(durable, saved);
          if EffectObserved(injected, fx, saved) then Run([w, torn, durable, injected], true)
          else Run([w, torn, durable] + Restore(injected, fx).trace, false)
  }

  /** apply's exception handler: restore, then raise whatever the outcome. */
  function Unwind(before: seq<World>, w: World, fx: Fixture): (r: Run)
    ensures r.trace != [] && before <= r.trace
  {
    Run(before + Restore(w, fx).trace, false)
  }

  /** The inode branch of apply, from the durable state file on. */
  function ExhaustInodes(w: World, fx: Fixture, saved: Saved): (r: Run)
    requires w.state.Durable?
    ensures r.trace != [] && r.trace[0] == w
  {
    if !CanCreate(w) then Unwind([], w, fx)
    else if !CanCreate(DirectoryMade(w)) then Unwind([w], DirectoryMade(w), fx)
    else
      var logged := LogMade(DirectoryMade(w));
      var truncated := logged.(state := Torn(w.state.id));
      var filled := Fill(Checkpoint(w, saved), 0, fx.inodeLimit);
      var before := [w, DirectoryMade(w), logged, truncated] + filled;
      var last := filled[|filled| - 1];
      if last.freeInodes == 0 && Inspect(last, fx).Some? then Run(before, true)
      else Unwind(before, last, fx)
  }

  function DirectoryMade(w: World): World
    requires w.freeInodes > 0
  {
    UseInode(w).(filler := Some(Filler(NextIdentity(w), map[])))
  }

  function LogMade(w: World): World
    requires w.freeInodes > 0
  {
    UseInode(w).(fillLog := Some(FillLog(NextIdentity(w), [], false)))
  }

  /** The world once the state file durably names the directory and the log. */
  function Checkpoint(w: World, saved: Saved): (c: World)
    requires w.state.Durable? && w.freeInodes > 1
    ensures c.filler.Some? && c.fillLog.Some?
  {
    var made := DirectoryMade(w);
    LogMade(made).(state := Durable(w.state.id, saved.(
      fillerDirectory := Some(NextIdentity(w)), fillerLog := Some(NextIdentity(made)))))
  }

  /** fill_inodes: make numbered files until the filesystem has no inode left,
      and log each one durably after it exists. */
  function Fill(w: World, index: nat, limit: nat): (r: seq<World>)
    requires w.filler.Some? && w.fillLog.Some?
    ensures r != [] && r[0] == w
    ensures r[|r| - 1].filler.Some? && r[|r| - 1].fillLog.Some?
    decreases limit - index
  {
    if index >= limit || !CanCreate(w) then [w]
    else [w, Created(w, index), HalfLogged(w, index)] + Fill(Logged(w, index), index + 1, limit)
  }

  function Created(w: World, index: nat): World
    requires w.filler.Some? && CanCreate(w)
  {
    var name := Decimal(index);
    var filler := w.filler.value;
    UseInode(w).(filler := Some(filler.(entries := filler.entries[name := Entry(NextIdentity(w), true)])))
  }

  function HalfLogged(w: World, index: nat): World
    requires w.filler.Some? && w.fillLog.Some? && CanCreate(w)
  {
    Created(w, index).(fillLog := Some(w.fillLog.value.(torn := true)))
  }

  function Logged(w: World, index: nat): (r: World)
    requires w.filler.Some? && w.fillLog.Some? && CanCreate(w)
    ensures r.filler.Some? && r.fillLog.Some?
  {
    var log := w.fillLog.value;
    Created(w, index).(fillLog := Some(log.(records := log.records + [Record(Decimal(index), NextIdentity(w))])))
  }

  // ----------------------------------------------------------------- restore

  /** The mount row restore expects while the fault is in place. */
  function ExpectedMount(saved: Saved): Mount {
    if saved.fault.ReadOnly?
    then saved.before.mount.(options := Remount(saved.before.mount.options, RW, RO))
    else saved.before.mount
  }

  function Restore(w: World, fx: Fixture): (r: Run)
    ensures r.trace != [] && r.trace[0] == w
  {
    match Inspect(w, fx)
    case None => Refused(w)
    case Some(seen) =>
      if !w.state.Durable? then Refused(w)
      else
        var saved := w.state.saved;
        if saved.fixture != fx || saved.before.mount.source != seen.mount.source then Refused(w)
        else if seen.mount != saved.before.mount && seen.mount != ExpectedMount(saved) then Refused(w)
        else if !saved.fault.ExportOutage? && seen.exports != saved.before.exports then Refused(w)
        else
          Undo(w, fx, saved)
  }

  /** The part of restore that depends on the fault, once the mount and the exports
      are as expected. */
  function Undo(w: World, fx: Fixture, saved: Saved): (r: Run)
    ensures r.trace != [] && r.trace[0] == w
  {
    if saved.fault.InodeExhaustion? then RestoreInodes(w, fx, saved)
    else
      match UndoCommand(w, saved)
      case None => Refused(w)
      case Some(undone) => Settle([w], undone, fx, saved)
  }

  /** The world after the one command that undoes a fault, None where the restore refuses it. */
  function UndoCommand(w: World, saved: Saved): Option<World> {
    match saved.fault
    case ExportOutage =>
      if (w.exports != [] && w.exports != saved.before.exports) || saved.before.exports == [] then None
      else Some(w.(exports := Reexport(w.exports, saved.before.exports[0])))
    case ReadOnly =>
      Some(w.(mount := w.mount.(options := Remount(w.mount.options, RO, RW))))
    case QuotaExhaustion =>
      if saved.quota.None? then None
      else
        var limits := saved.quota.value;
        var current := (w.quota.blockHard, w.quota.blockSoft);
        if current != (limits.blockHard, limits.blockSoft) && current != (ExhaustedLimit(limits.space), 0) then None
        else Some(w.(quota := SetBlockLimits(w.quota, limits.blockHard, limits.blockSoft)))
    case _ => None
  }

  /** The last steps of restore: compare with the saved observation, then drop
      the state file. */
  function Settle(before: seq<World>, w: World, fx: Fixture, saved: Saved): (r: Run)
    ensures before + [w] <= r.trace
  {
    if Inspect(w, fx) != Some(saved.before) || !Writable(w) then Run(before + [w], false)
    else Run(before + [w, w.(state := Absent, freeInodes := w.freeInodes + 1)], true)
  }

  /** restore_inodes: unlink the logged files, then the directory and the log. */
  function RestoreInodes(w: World, fx: Fixture, saved: Saved): (r: Run)
    ensures r.trace != [] && r.trace[0] == w
  {
    if !OwnsFiller(w, saved) || !Writable(w) then Refused(w)
    else
      var unlinked := Unlink(w, w.fillLog.value.records);
      var emptied := unlinked[|unlinked| - 1];
      Settle(unlinked + [NoDirectory(emptied)], NoLog(NoDirectory(emptied)), fx, saved)
  }

  function NoDirectory(w: World): World { w.(filler := None, freeInodes := w.freeInodes + 1) }

  function NoLog(w: World): World { w.(fillLog := None, freeInodes := w.freeInodes + 1) }

  /** Every check restore_inodes makes before it unlinks anything. */
  predicate OwnsFiller(w: World, saved: Saved) {
    && saved.fillerDirectory.Some?
    && w.filler.Some? && w.filler.value.id == saved.fillerDirectory.value
    && w.fillLog.Some? && Some(w.fillLog.value.id) == saved.fillerLog && !w.fillLog.value.torn
    && var records, entries := w.fillLog.value.records, w.filler.value.entries;
    && DistinctNames(records)
    && entries.Keys == Names(records)
    && forall r | r in records ::
         r.name != [] && AllDigits(r.name) && r.name in entries && entries[r.name] == Entry(r.id, true)
  }

  function Names(records: seq<Record>): set<string> { set r | r in records :: r.name }

  predicate DistinctNames(records: seq<Record>) {
    forall i, j :: 0 <= i < j < |records| ==> records[i].name != records[j].name
  }

  function Unlink(w: World, records: seq<Record>): (r: seq<World>)
    requires w.filler.Some?
    ensures r != [] && r[0] == w
    decreases |records|
  {
    if records == [] then [w]
    else
      var filler := w.filler.value;
      var next := w.(filler := Some(filler.(entries := filler.entries - {records[0].name})),
                     freeInodes := w.freeInodes + 1);
      [w] + Unlink(next, records[1..])
  }

  /** Restoring the inode fault is restore_inodes, or nothing. */
  lemma RestoreOfInodes(w: World, fx: Fixture)
    requires w.state.Durable? && w.state.saved.fault.InodeExhaustion?
    ensures Restore(w, fx) == Refused(w) || Restore(w, fx) == RestoreInodes(w, fx, w.state.saved)
  {
    hide RestoreInodes;
    hide ExpectedMount;
  }

  /** The crash points of restore_inodes: the unlinks, then one each without the
      directory, the log and the state file. */
  lemma RestoreInodesPoints(w: World, fx: Fixture, saved: Saved, x: World)
    requires x in RestoreInodes(w, fx, saved).trace && x != w
    ensures OwnsFiller(w, saved)
    ensures var unlinked := Unlink(w, w.fillLog.value.records);
      var settled := NoLog(NoDirectory(unlinked[|unlinked| - 1]));
      || x in unlinked
      || x == NoDirectory(unlinked[|unlinked| - 1])
      || x == settled
      || x == settled.(state := Absent, freeInodes := settled.freeInodes + 1)
  {
    hide OwnsFiller;
    hide Unlink;
    hide Inspect;
  }

  // ----------------------------------------------------------- runs and crashes

  /** One invocation of the controller that stops after `cut` durable changes,
      or runs to its end when it has fewer. */
  datatype Event =
    | DoApply(fx: Fixture, fault: Fault, cut: nat)
    | DoRestore(fx: Fixture, cut: nat)

  /** backend_lock: apply makes the coordination file when it is absent, restore
      insists on it. */
  function Lock(w: World, fx: Fixture, creating: bool): Option<World> {
    if Inspect(w, fx).None? then None
    else if w.lockFile then Some(w)
    else if creating && CanCreate(w) then Some(UseInode(w).(lockFile := true))
    else None
  }

  function EventTrace(w: World, e: Event): (t: seq<World>)
    ensures t != [] && t[0] == w
  {
    match e
    case DoApply(fx, fault, _) =>
      var locked := Lock(w, fx, true);
      if locked.None? then [w] else [w] + Apply(locked.value, fx, fault).trace
    case DoRestore(fx, _) =>
      var locked := Lock(w, fx, false);
      if locked.None? then [w] else [w] + Restore(locked.value, fx).trace
  }

  function After(w: World, e: Event): World {
    var t := EventTrace(w, e);
    if e.cut < |t| then t[e.cut] else t[|t| - 1]
  }

  function AfterAll(w: World, es: seq<Event>): World
    decreases |es|
  {
    if es == [] then w else AfterAll(After(w, es[0]), es[1..])
  }
}
