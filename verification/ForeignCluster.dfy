/** What the foreign-VM pass (scripts/_lifecycle_foreign.py) may send to the second
    cluster. A run is the log of its queries with the answers an adversary chose. */
module ForeignCluster {
  import opened Text
  import opened VmCid

  datatype Status = Status(power: string, lock: string)

  type Config = map<string, string>

  datatype Reply = Value(b: bool) | Listing | OtherValue | Refusal(asExpected: bool)

  /** Any answer; a query reads the part it asked for. `ok` is false when the call
      raised. */
  datatype Answer = Answer(ok: bool, inUse: bool, nodes: seq<string>, config: Config, status: Status, reply: Reply, token: string)

  datatype Rpc = HasVm | GetDisks | DeleteVm | RebootVm | SetMetadata

  datatype Query =
    | InUse(vmid: nat)
    | Nodes
    | Create(node: string, vmid: nat, name: string)
    | Await(node: string)
    | ReadConfig(node: string, vmid: nat)
    | ReadStatus(node: string, vmid: nat)
    | Destroy(node: string, vmid: nat)
    | Call(rpc: Rpc, cid: string, toAz2: bool)
    | Az1Exists(vmid: nat)
    | Az1Config(vmid: nat)
    | DrawToken

  datatype Event = Event(query: Query, answer: Answer)

  /** The hand-made VM, as it came up. */
  datatype Made = Made(node: string, vmid: nat, config: Config, status: Status)

  function Name(vmid: nat): string { "lifecycle-handmade-" + Decimal(vmid) }

  predicate NamedOurs(config: Config, vmid: nat) { "name" in config && config["name"] == Name(vmid) }

  predicate Untagged(config: Config) { "tags" in config ==> Strip(config["tags"]) == "" }

  /** config_differences */
  function Differences(before: Config, after: Config): set<string> {
    set key | key in before.Keys + after.Keys && !(key in before && key in after && before[key] == after[key])
  }

  lemma NoDifferences(before: Config, after: Config)
    ensures Differences(before, after) == {} <==> before == after
  {
    if Differences(before, after) == {} {
      forall key | key in before.Keys + after.Keys ensures key in before && key in after && before[key] == after[key] {
        assert key !in Differences(before, after);
      }
      assert before.Keys == after.Keys;
    }
  }

  // -------------------------------------------------------- reading the log

  /** The position of the last create. */
  function LastCreate(log: seq<Event>): (r: Option<nat>)
    ensures r.Some? ==> r.value < |log| && log[r.value].query.Create?
  {
    if log == [] then None
    else if log[|log| - 1].query.Create? then Some(|log| - 1)
    else LastCreate(log[..|log| - 1])
  }

  /** The VM came up clean: its create task finished, it bears the name that was
      asked for, no tag and no lock, and it is stopped. */
  predicate CameUp(log: seq<Event>, c: nat)
    requires c < |log| && log[c].query.Create?
  {
    && c + 3 < |log|
    && var create := log[c].query;
    && log[c + 1].query == Await(create.node) && log[c + 1].answer.ok
    && log[c + 2].query == ReadConfig(create.node, create.vmid) && log[c + 2].answer.ok
    && NamedOurs(log[c + 2].answer.config, create.vmid) && Untagged(log[c + 2].answer.config)
    && log[c + 3].query == ReadStatus(create.node, create.vmid) && log[c + 3].answer.ok
    && log[c + 3].answer.status == Status("stopped", "")
  }

  /** The snapshot of the VM the log shows being made, once it has come up clean. */
  function Snapshot(log: seq<Event>): Option<Made> {
    match LastCreate(log)
    case None => None
    case Some(c) =>
      if !CameUp(log, c) then None
      else Some(Made(log[c].query.node, log[c].query.vmid, log[c + 2].answer.config, log[c + 3].answer.status))
  }

  /** The VM has just been read, bearing this run's name. */
  predicate JustRead(log: seq<Event>, n: nat, node: string, vmid: nat)
    requires n < |log|
  {
    log[n].query == ReadConfig(node, vmid) && log[n].answer.ok && NamedOurs(log[n].answer.config, vmid)
  }

  /** The VM has just been read and is the snapshot: name, config, power and lock. */
  predicate JustUntouched(log: seq<Event>, made: Made) {
    && |log| >= 2
    && JustRead(log, |log| - 2, made.node, made.vmid) && log[|log| - 2].answer.config == made.config
    && log[|log| - 1].query == ReadStatus(made.node, made.vmid) && log[|log| - 1].answer.ok
    && log[|log| - 1].answer.status == made.status
  }

  /** The VMID has just been seen free, but for a look at the nodes. */
  predicate JustFree(log: seq<Event>, vmid: nat) {
    || (|log| >= 1 && SeenFree(log[|log| - 1], vmid))
    || (|log| >= 2 && SeenFree(log[|log| - 2], vmid) && log[|log| - 1].query.Nodes?)
  }

  predicate SeenFree(e: Event, vmid: nat) { e.query == InUse(vmid) && e.answer.ok && !e.answer.inUse }

  // ------------------------------------------------------- what may be sent

  /** A destroy: of the VM this run made, just read as named, and as the snapshot
      once there is one. */
  predicate MayDestroy(log: seq<Event>, node: string, vmid: nat) {
    && LastCreate(log).Some? && log[LastCreate(log).value].query == Create(node, vmid, Name(vmid))
    && match Snapshot(log)
       case Some(made) => JustUntouched(log, made)
       case None => JustRead(log, |log| - 1, node, vmid) && Untagged(log[|log| - 1].answer.config)
  }

  /** A delete_vm to the second cluster: of a CID that names another cluster, or of
      the VM this run made, just read as the snapshot. */
  predicate MayDelete(log: seq<Event>, cid: string) {
    && Parse(cid).Some?
    && (KnownCluster(Parse(cid).value)
        || (Snapshot(log).Some? && Snapshot(log).value.vmid == Parse(cid).value.vmid && JustUntouched(log, Snapshot(log).value)))
  }

  predicate Allowed(log: seq<Event>, q: Query) {
    match q
    case Create(_, vmid, name) => name == Name(vmid) && JustFree(log, vmid)
    case Destroy(node, vmid) => MayDestroy(log, node, vmid)
    case Call(rpc, cid, toAz2) => rpc == DeleteVm && toAz2 ==> MayDelete(log, cid)
    case _ => true
  }

  /** Every query of the run was allowed when it was sent. */
  predicate Safe(log: seq<Event>) { forall i | 0 <= i < |log| :: Allowed(log[..i], log[i].query) }

  /** Goes to the first cluster only, or to neither. */
  predicate OnAz1(q: Query) { q.Az1Exists? || q.Az1Config? || q.DrawToken? || (q.Call? && !q.toAz2) }

  /** The run ends with the VMID seen free on the second cluster, and nothing sent
      there after that. */
  predicate EndsFree(log: seq<Event>, vmid: nat) {
    && log != []
    && var last := log[|log| - 1];
    (SeenFree(last, vmid) || (OnAz1(last.query) && EndsFree(log[..|log| - 1], vmid)))
  }

  lemma {:induction false} EndsFreeStays(log: seq<Event>, more: seq<Event>, vmid: nat)
    requires EndsFree(log, vmid) && log <= more
    requires forall i | |log| <= i < |more| :: OnAz1(more[i].query)
    ensures EndsFree(more, vmid)
    decreases |more|
  {
    if |more| == |log| {
      assert more == log;
    } else {
      EndsFreeStays(log, more[..|more| - 1], vmid);
    }
  }

  // ------------------------------------------------- what a run leaves behind

  lemma MadeStays(log: seq<Event>, more: seq<Event>, from: nat)
    requires MadeQuietly(log, from) && Quietly(log, more) && from <= |log|
    ensures MadeQuietly(more, from)
  {
    hide LastCreate;
    assert forall i | 0 <= i < |log| :: more[i] == log[i];
  }

  lemma QuietlyOn(a: seq<Event>, b: seq<Event>, c: seq<Event>)
    requires Quietly(a, b) && Quietly(b, c)
    ensures Quietly(a, c)
  {
    hide LastCreate;
    assert forall i | 0 <= i < |b| :: c[i] == b[i];
  }

  lemma HeldStays(log: seq<Event>, more: seq<Event>, from: nat)
    requires SeenHeld(log, from) && log <= more
    ensures SeenHeld(more, from) && NotSeenFree(more, from)
  {
    var i :| from <= i < |log| && log[i].query.InUse? && log[i].answer.ok && log[i].answer.inUse;
    assert more[i] == log[i];
  }

  lemma QuietlySelf(log: seq<Event>)
    ensures Quietly(log, log)
  {
  }

  lemma QuietlyPrefix(a: seq<Event>, b: seq<Event>)
    requires Quietly(a, b)
    ensures a <= b && LastCreate(b) == LastCreate(a)
  {
  }

  lemma NoRaiseSelf(log: seq<Event>)
    ensures NoRaise(log, |log|)
  {
  }

  lemma NoRaiseOn(a: seq<Event>, b: seq<Event>, from: nat)
    requires NoRaise(a, from) && a <= b && NoRaise(b, |a|)
    ensures NoRaise(b, from)
  {
    assert forall i | 0 <= i < |a| :: b[i] == a[i];
  }

  /** A create was sent from here on. */
  predicate Created(log: seq<Event>, from: nat) { LastCreate(log).Some? && LastCreate(log).value >= from }

  /** No query raised from here on. */
  predicate NoRaise(log: seq<Event>, from: nat) { forall i | from <= i < |log| :: log[i].answer.ok }

  predicate Destroys(log: seq<Event>, from: nat) { exists i | from <= i < |log| :: log[i].query.Destroy? }

  /** A look found a guest on the VMID. */
  predicate SeenHeld(log: seq<Event>, from: nat) {
    exists i | from <= i < |log| :: log[i].query.InUse? && log[i].answer.ok && log[i].answer.inUse
  }

  /** A look raised, or found a guest on the VMID. */
  predicate NotSeenFree(log: seq<Event>, from: nat) {
    exists i | from <= i < |log| :: log[i].query.InUse? && (!log[i].answer.ok || log[i].answer.inUse)
  }

  /** A create was sent at most, with no destroy from here on and no look at the VMID
      after the create. */
  predicate MadeQuietly(log: seq<Event>, from: nat) {
    && !Destroys(log, from)
    && (Created(log, from) ==> forall i | LastCreate(log).value < i < |log| :: !log[i].query.InUse?)
  }

  /** How the collision step begins: with a look at the VMID; on a VMID seen free and
      with a node given, the create follows, and its task is awaited unless the
      create raised. */
  predicate FirstSteps(log: seq<Event>, from: nat, vmid: nat, node: string) {
    && from < |log| && log[from].query == InUse(vmid)
    && (SeenFree(log[from], vmid) && node != "" ==> LastCreate(log) == Some(from + 1))
    && (Created(log, from) && log[LastCreate(log).value].answer.ok ==>
          LastCreate(log).value + 1 < |log| && log[LastCreate(log).value + 1].query.Await?)
  }

  /** What the looks after a create say about it: it is still remembered only when one
      of them did not see the VMID free; a destroy was sent only when one of them found
      a guest; and when it is forgotten, that guest was destroyed. */
  predicate Leftover(log: seq<Event>, from: nat, remembered: bool)
    requires Created(log, from)
  {
    var c := LastCreate(log).value;
    && (remembered ==> NotSeenFree(log, c + 1))
    && (Destroys(log, from) ==> SeenHeld(log, c + 1))
    && (!remembered && SeenHeld(log, c + 1) ==> Destroys(log, from))
  }

  /** The removal of a VM made quietly. */
  lemma LeftoverIs(tried: seq<Event>, log: seq<Event>, from: nat, remembered: bool)
    requires Created(tried, from) && MadeQuietly(tried, from) && tried <= log && LastCreate(log) == LastCreate(tried)
    requires remembered ==> NotSeenFree(log, |tried|)
    requires Destroys(log, |tried|) ==> SeenHeld(log, |tried|)
    requires !remembered && SeenHeld(log, |tried|) ==> Destroys(log, |tried|)
    ensures Leftover(log, from, remembered)
  {
    hide LastCreate;
    assert forall i | 0 <= i < |tried| :: log[i] == tried[i];
    assert Destroys(log, from) <==> Destroys(log, |tried|);
  }

  /** Later traffic that looks at nothing and destroys nothing changes nothing. */
  lemma LeftoverStays(log: seq<Event>, more: seq<Event>, from: nat, remembered: bool)
    requires Created(log, from) && Leftover(log, from, remembered) && Quietly(log, more)
    ensures Created(more, from) && Leftover(more, from, remembered)
  {
    hide LastCreate;
    assert forall i | 0 <= i < |log| :: more[i] == log[i];
    assert Destroys(more, from) <==> Destroys(log, from);
    var c := LastCreate(log).value;
    assert SeenHeld(more, c + 1) <==> SeenHeld(log, c + 1);
  }

  lemma FirstStepsStay(log: seq<Event>, more: seq<Event>, from: nat, vmid: nat, node: string)
    requires FirstSteps(log, from, vmid, node) && log <= more && LastCreate(log) == LastCreate(more)
    ensures FirstSteps(more, from, vmid, node)
  {
    hide LastCreate;
    assert forall i | 0 <= i < |log| :: more[i] == log[i];
  }

  /** More of the log, without a create, a destroy or a look at the VMID. */
  predicate Quietly(before: seq<Event>, log: seq<Event>) {
    && before <= log && LastCreate(log) == LastCreate(before)
    && forall i | |before| <= i < |log| :: !log[i].query.Create? && !log[i].query.Destroy? && !log[i].query.InUse?
  }

  /** From here on the log shows this query answered so. */
  predicate Answered(log: seq<Event>, from: nat, q: Query, reply: Reply) {
    exists i | from <= i < |log| :: log[i].query == q && log[i].answer.ok && log[i].answer.reply == reply
  }

  lemma AnsweredNow(log: seq<Event>, from: nat, e: Event)
    requires from <= |log| && e.answer.ok
    ensures Answered(log + [e], from, e.query, e.answer.reply)
  {
    assert (log + [e])[|log|] == e;
  }

  lemma AnsweredStill(log: seq<Event>, more: seq<Event>, from: nat, q: Query, reply: Reply)
    requires Answered(log, from, q, reply) && log <= more
    ensures Answered(more, from, q, reply)
  {
    var i :| from <= i < |log| && log[i].query == q && log[i].answer.ok && log[i].answer.reply == reply;
    assert more[i] == log[i];
  }

  lemma AnsweredBefore(log: seq<Event>, from: nat, earlier: nat, q: Query, reply: Reply)
    requires Answered(log, from, q, reply) && earlier <= from
    ensures Answered(log, earlier, q, reply)
  {
  }

  /** What the absent-VMID step may send. */
  predicate Probes(q: Query, cid: Cid) {
    || q.InUse? || OnAz1(q)
    || (q.Call? && (q.rpc == HasVm || (q.rpc == DeleteVm && KnownCluster(cid) && q.cid == Print(cid))))
  }

  /** The answers the absent-VMID step insists on. */
  predicate AbsentAnswers(log: seq<Event>, from: nat, cid: Cid) {
    && Answered(log, from, Call(HasVm, PathId(cid), true), Value(false))
    && (KnownCluster(cid) ==>
          && Answered(log, from, Call(HasVm, Print(cid), true), Value(false))
          && Answered(log, from, Call(DeleteVm, Print(cid), true), Refusal(true)))
  }

  /** The answers the collision step insists on. */
  predicate CollisionTable(log: seq<Event>, from: nat, cid: Cid, warn: bool) {
    && Answered(log, from, Call(HasVm, Print(cid), true), Value(warn))
    && Answered(log, from, Call(GetDisks, Print(cid), true), if warn then Listing else Refusal(true))
    && Answered(log, from, Call(DeleteVm, Print(cid), true), Refusal(true))
    && Answered(log, from, Call(RebootVm, Print(cid), true), Refusal(true))
    && Answered(log, from, Call(SetMetadata, Print(cid), true), Refusal(true))
  }

  lemma TableStill(log: seq<Event>, more: seq<Event>, from: nat, earlier: nat, cid: Cid, warn: bool)
    requires CollisionTable(log, from, cid, warn) && log <= more && earlier <= from
    ensures CollisionTable(more, earlier, cid, warn)
  {
    forall q, reply | Answered(log, from, q, reply) ensures Answered(more, earlier, q, reply) {
      AnsweredStill(log, more, from, q, reply);
      AnsweredBefore(more, from, earlier, q, reply);
    }
    hide Answered;
    hide Print;
  }

  lemma AbsentStill(log: seq<Event>, more: seq<Event>, from: nat, earlier: nat, cid: Cid)
    requires AbsentAnswers(log, from, cid) && log <= more && earlier <= from
    ensures AbsentAnswers(more, earlier, cid)
  {
    forall q, reply | Answered(log, from, q, reply) ensures Answered(more, earlier, q, reply) {
      AnsweredStill(log, more, from, q, reply);
      AnsweredBefore(more, from, earlier, q, reply);
    }
    hide Answered;
    hide Print;
    hide PathId;
  }

  /** The answers the token-mismatch step insists on, for some wrong token. */
  ghost predicate TokenAnswers(log: seq<Event>, from: nat, cid: Cid) {
    exists token :: token != cid.token && WrongTokenAnswers(log, from, cid.(token := token))
  }

  predicate WrongTokenAnswers(log: seq<Event>, from: nat, wrong: Cid) {
    && Answered(log, from, Call(HasVm, Print(wrong), false), Value(false))
    && Answered(log, from, Call(DeleteVm, Print(wrong), false), Refusal(true))
  }

  lemma TokenEarlier(log: seq<Event>, from: nat, earlier: nat, cid: Cid)
    requires TokenAnswers(log, from, cid) && earlier <= from
    ensures TokenAnswers(log, earlier, cid)
  {
    hide Print;
    var token :| token != cid.token && WrongTokenAnswers(log, from, cid.(token := token));
    assert WrongTokenAnswers(log, earlier, cid.(token := token));
  }

  lemma SafeGrows(log: seq<Event>, e: Event)
    requires Safe(log) && Allowed(log, e.query)
    ensures Safe(log + [e])
  {
    hide Allowed;
    var more := log + [e];
    forall i | 0 <= i < |more| ensures Allowed(more[..i], more[i].query) {
      if i < |log| {
        assert more[..i] == log[..i] && more[i] == log[i];
      } else {
        assert more[..i] == log && more[i] == e;
      }
    }
  }

  /** Only a create or the first status read after it changes the snapshot. */
  lemma SnapshotStays(log: seq<Event>, e: Event)
    requires !e.query.Create? && (e.query.ReadStatus? ==> Snapshot(log).Some?)
    ensures LastCreate(log + [e]) == LastCreate(log) && Snapshot(log + [e]) == Snapshot(log)
  {
    assert (log + [e])[..|log|] == log;
    hide NamedOurs;
    hide Untagged;
  }

  /** A destroyed VM was made by this run on a VMID seen free before, and was read
      under this run's name just before the destroy. */
  lemma DestroysOnlyOurs(log: seq<Event>, i: nat) returns (free: nat, create: nat, read: nat)
    requires Safe(log) && i < |log| && log[i].query.Destroy?
    ensures free < create < read < i && i - 2 <= read && create - 2 <= free
    ensures SeenFree(log[free], log[i].query.vmid)
    ensures log[create].query == Create(log[i].query.node, log[i].query.vmid, Name(log[i].query.vmid))
    ensures JustRead(log, read, log[i].query.node, log[i].query.vmid)
  {
    var q := log[i].query;
    assert MayDestroy(log[..i], q.node, q.vmid) by { assert Allowed(log[..i], q); }
    create := LastCreate(log[..i]).value;
    assert log[..i][create] == log[create];
    assert JustFree(log[..create], q.vmid) by { assert Allowed(log[..create], log[create].query); }
    free := if SeenFree(log[create - 1], q.vmid) then create - 1 else create - 2;
    read := if Snapshot(log[..i]).Some? then i - 2 else i - 1;
  }

  /** A VM that had come up clean was destroyed as it had come up: the config and the
      status read just before the destroy are those read right after its create, and
      no other create lies between. */
  lemma DestroysOnlyUntouched(log: seq<Event>, i: nat) returns (create: nat)
    requires Safe(log) && i < |log| && log[i].query.Destroy? && Snapshot(log[..i]).Some?
    ensures create + 4 <= i && log[create].query == Create(log[i].query.node, log[i].query.vmid, Name(log[i].query.vmid))
    ensures log[create + 2].query == log[i - 2].query == ReadConfig(log[i].query.node, log[i].query.vmid)
    ensures log[create + 3].query == log[i - 1].query == ReadStatus(log[i].query.node, log[i].query.vmid)
    ensures log[i - 2].answer.config == log[create + 2].answer.config
    ensures log[i - 1].answer.status == log[create + 3].answer.status == Status("stopped", "")
    ensures forall j | create < j < i :: !log[j].query.Create?
  {
    var before := log[..i];
    assert MayDestroy(before, log[i].query.node, log[i].query.vmid) by { assert Allowed(before, log[i].query); }
    create := LastCreate(before).value;
    NoLaterCreate(before);
    hide Safe;
    assert CameUp(before, create) && before[create] == log[create];
    forall j | create < j < i ensures !log[j].query.Create? { assert before[j] == log[j]; }
  }

  lemma {:induction false} NoLaterCreate(log: seq<Event>)
    ensures forall j | 0 <= j < |log| && log[j].query.Create? :: LastCreate(log).Some? && j <= LastCreate(log).value
  {
    if log == [] {
    } else if !log[|log| - 1].query.Create? {
      NoLaterCreate(log[..|log| - 1]);
      forall j | 0 <= j < |log| && log[j].query.Create? ensures LastCreate(log).Some? && j <= LastCreate(log).value {
        assert log[..|log| - 1][j] == log[j];
      }
    }
  }
}
