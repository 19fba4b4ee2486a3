/** The foreign-VM pass (scripts/_lifecycle_foreign.py) as it runs: every step keeps
    its log safe, whatever the clusters answer. A method that returns false stands
    for one that raised. */
module ForeignPass {
  import opened Text
  import opened VmCid
  import opened ForeignCluster
  import opened ForeignScript

  datatype Handmade = Handmade(node: string, vmid: nat, snapshot: Option<Made>, unconfirmed: bool)

  class Pass {
    const vmCid: string
    const az2Node: string          // the node the second cluster's settings name, or ""
    const warn: bool               // the ownership guard only warns
    const settleAttempts: nat
    const answers: nat -> Answer   // the adversary: the answer to the n-th query
    var log: seq<Event>
    var handmade: Option<Handmade>

    constructor (vmCid: string, az2Node: string, warn: bool, settleAttempts: nat, answers: nat -> Answer)
      ensures log == [] && handmade == None && this.vmCid == vmCid && this.answers == answers
      ensures this.az2Node == az2Node && this.warn == warn && this.settleAttempts == settleAttempts
      ensures Valid()
    {
      this.vmCid, this.az2Node, this.warn, this.settleAttempts, this.answers := vmCid, az2Node, warn, settleAttempts, answers;
      log, handmade := [], None;
    }

    /** The log is safe and holds the adversary's answers, and what the pass remembers
        is what the log shows. */
    ghost predicate Valid()
      reads this
    {
      Safe(log) && Told() && (handmade.Some? ==> Remembered(log, handmade.value))
    }

    ghost predicate Told()
      reads this`log
    {
      forall i | 0 <= i < |log| :: log[i].answer == answers(i)
    }

    method Ask(q: Query) returns (a: Answer)
      requires Safe(log) && Told() && Allowed(log, q)
      modifies `log
      ensures log == old(log) + [Event(q, a)] && Safe(log) && Told()
      ensures a == answers(|old(log)|)
    {
      a := answers(|log|);
      SafeGrows(log, Event(q, a));
      log := log + [Event(q, a)];
    }

    /** A query that can change nothing the pass remembers. */
    method AskOn(q: Query) returns (a: Answer)
      requires Valid() && Allowed(log, q)
      requires !q.Create? && (q.ReadStatus? ==> Snapshot(log).Some?)
      modifies `log
      ensures Valid() && log == old(log) + [Event(q, a)]
      ensures LastCreate(log) == LastCreate(old(log)) && Snapshot(log) == Snapshot(old(log))
      ensures !q.Destroy? && !q.InUse? ==> Quietly(old(log), log)
    {
      hide Safe;
      hide Told;
      hide Allowed;
      ghost var before := log;
      a := Ask(q);
      SnapshotStays(before, Event(q, a));
      RememberedStays(before, Event(q, a), handmade);
    }

    // ---------------------------------------------------------- the steps

    method RequireFree(vmid: nat) returns (ok: bool)
      requires Valid()
      modifies `log
      ensures Valid() && old(log) < log && |log| == |old(log)| + 1
      ensures log[|log| - 1].query == InUse(vmid) && (ok <==> SeenFree(log[|log| - 1], vmid))
      ensures LastCreate(log) == LastCreate(old(log))
      ensures Ran(log, |old(log)|, [FreeLook(vmid)], ok)
    {
      var a := AskOn(InUse(vmid));
      ok := a.ok && !a.inUse;
    }

    /** _assert_az1_untouched: success means the VM was just read as it was. */
    method Az1Untouched(vmid: nat, before: Config) returns (ok: bool)
      requires Valid()
      modifies `log
      ensures Valid() && old(log) < log && Quietly(old(log), log) && LastCreate(log) == LastCreate(old(log))
      ensures ok ==> NoRaise(log, |old(log)|)
      ensures forall i | |old(log)| <= i < |log| :: OnAz1(log[i].query)
      ensures ok ==> log[|log| - 1].query == Az1Config(vmid) && log[|log| - 1].answer.ok && log[|log| - 1].answer.config == before
      ensures Ran(log, |old(log)|, Az1Script(vmid, before), ok)
    {
      hide Safe;
      hide Told;
      hide Remembered;
      hide LastCreate;
      hide Snapshot;
      hide Quietly;
      hide Ran;
      ghost var start := log;
      ghost var alive, shows := Az1Alive(vmid), Az1Shows(vmid, before);
      var a := AskOn(Az1Exists(vmid));
      if !a.ok || !a.inUse {
        AskedOne(start, log, alive, [shows]);
        assert [alive] + [shows] == Az1Script(vmid, before);
        return false;
      }
      ghost var middle := log;
      a := AskOn(Az1Config(vmid));
      AskedTwo(start, middle, log, alive, shows, []);
      assert [alive, shows] + [] == Az1Script(vmid, before);
      QuietlyOn(old(log), middle, log);
      NoDifferences(before, a.config);
      ok := a.ok && Differences(before, a.config) == {};
    }

    /** absent_vmid: nothing is sent that could act on a VM this run did not make,
        and a normal return has seen every answer it insists on. */
    method AbsentVmid(cid: Cid, before: Config) returns (ok: bool)
      requires Valid() && VmCid.Valid(cid)
      modifies `log
      ensures Valid() && old(log) <= log && LastCreate(log) == LastCreate(old(log))
      ensures forall i | |old(log)| <= i < |log| :: Probes(log[i].query, cid)
      ensures ok ==> AbsentAnswers(log, |old(log)|, cid)
      ensures Ran(log, |old(log)|, AbsentScript(cid, before), ok)
    {
      hide Safe;
      hide LastCreate;
      hide Snapshot;
      hide Quietly;
      hide EndsFree;
      hide Told;
      hide Remembered;
      hide Answered;
      hide Print;
      hide PathId;
      hide Ran;
      hide StampedScript;
      hide Az1Script;
      ghost var from, look := |log|, [FreeLook(cid.vmid)];
      ghost var stamp := if KnownCluster(cid) then StampedScript(cid, before) else [];
      ghost var says, az1 := Says(HasVm, PathId(cid), true, Value(false)), Az1Script(cid.vmid, before);
      ok := RequireFree(cid.vmid);
      if !ok {
        AbsentStop(log, from, cid, before, look, stamp + look + [says] + az1);
        return;
      }
      ghost var looked := log;
      if KnownCluster(cid) {
        ok := StampedAnswers(cid, before, |old(log)|);
      }
      ghost var stamped := log;
      if !KnownCluster(cid) { RanNone(log); }
      RanBoth(looked, log, from, look, stamp, ok);
      if !ok {
        AbsentStop(log, from, cid, before, look + stamp, look + [says] + az1);
        return;
      }
      ok := BareAnswers(cid, before, from);
      RanBoth(stamped, log, from, look + stamp, look + [says] + az1, ok);
      assert look + stamp + (look + [says] + az1) == AbsentScript(cid, before);
      if KnownCluster(cid) {
        AnsweredStill(stamped, log, |old(log)|, Call(HasVm, Print(cid), true), Value(false));
        AnsweredStill(stamped, log, |old(log)|, Call(DeleteVm, Print(cid), true), Refusal(true));
      }
    }

    /** The bare half of the absent-VMID step: has_vm only. */
    method BareAnswers(cid: Cid, before: Config, ghost from: nat) returns (ok: bool)
      requires Valid() && from <= |log|
      modifies `log
      ensures Valid() && old(log) <= log && LastCreate(log) == LastCreate(old(log))
      ensures forall i | |old(log)| <= i < |log| :: Probes(log[i].query, cid)
      ensures ok ==> Answered(log, from, Call(HasVm, PathId(cid), true), Value(false))
      ensures Ran(log, |old(log)|,
                  [FreeLook(cid.vmid)] + [Says(HasVm, PathId(cid), true, Value(false))] + Az1Script(cid.vmid, before), ok)
    {
      hide Safe;
      hide LastCreate;
      hide Snapshot;
      hide Quietly;
      hide EndsFree;
      hide Told;
      hide Remembered;
      hide Answered;
      hide Print;
      hide PathId;
      hide Ran;
      hide Az1Script;
      ghost var start, look := |log|, [FreeLook(cid.vmid)];
      ghost var says, az1 := Says(HasVm, PathId(cid), true, Value(false)), Az1Script(cid.vmid, before);
      ok := RequireFree(cid.vmid);
      if !ok {
        RanStop(log, start, look, [says] + az1);
        assert look + ([says] + az1) == look + [says] + az1;
        return;
      }
      ghost var asked := log;
      var has := AskOn(Call(HasVm, PathId(cid), true));
      AskedOne(asked, log, says, []);
      assert [says] + [] == [says];
      RanBoth(asked, log, start, look, [says], Meets(says, has));
      if !has.ok || has.reply != Value(false) {
        RanStop(log, start, look + [says], az1);
        return false;
      }
      AnsweredNow(asked, from, log[|log| - 1]);
      ghost var seen := log;
      ok := Az1Untouched(cid.vmid, before);
      RanBoth(seen, log, start, look + [says], az1, ok);
      AnsweredStill(seen, log, from, Call(HasVm, PathId(cid), true), Value(false));
    }

    /** The stamped half of the absent-VMID step. */
    method StampedAnswers(cid: Cid, before: Config, ghost from: nat) returns (ok: bool)
      requires Valid() && VmCid.Valid(cid) && KnownCluster(cid) && from <= |log|
      modifies `log
      ensures Valid() && old(log) <= log && LastCreate(log) == LastCreate(old(log))
      ensures forall i | |old(log)| <= i < |log| :: Probes(log[i].query, cid)
      ensures ok ==> Answered(log, from, Call(HasVm, Print(cid), true), Value(false))
      ensures ok ==> Answered(log, from, Call(DeleteVm, Print(cid), true), Refusal(true))
      ensures Ran(log, |old(log)|, StampedScript(cid, before), ok)
    {
      hide Print;
      hide Safe;
      hide Told;
      hide Remembered;
      hide Answered;
      hide LastCreate;
      hide Snapshot;
      hide Quietly;
      hide EndsFree;
      hide Allowed;
      hide VmCid.Valid;
      hide KnownCluster;
      hide Ran;
      ghost var says := [Says(HasVm, Print(cid), true, Value(false)), Says(DeleteVm, Print(cid), true, Refusal(true))];
      MayCallKnown(log, HasVm, cid);
      ghost var first := log;
      var has := AskOn(Call(HasVm, Print(cid), true));
      if !has.ok || has.reply != Value(false) {
        AskedOne(first, log, says[0], says[1..] + Az1Script(cid.vmid, before));
        assert [says[0]] + (says[1..] + Az1Script(cid.vmid, before)) == StampedScript(cid, before);
        return false;
      }
      AnsweredNow(first, from, log[|log| - 1]);
      ghost var second := log;
      MayCallKnown(log, DeleteVm, cid);
      var err := AskOn(Call(DeleteVm, Print(cid), true));
      if !err.ok || err.reply != Refusal(true) {
        AskedTwo(first, second, log, says[0], says[1], Az1Script(cid.vmid, before));
        return false;
      }
      AnsweredNow(second, from, log[|log| - 1]);
      ghost var third := log;
      AskedTwo(first, second, log, says[0], says[1], []);
      ok := Az1Untouched(cid.vmid, before);
      RanBoth(third, log, |first|, says, Az1Script(cid.vmid, before), ok);
      AnsweredStill(second, log, from, Call(HasVm, Print(cid), true), Value(false));
      AnsweredStill(third, log, from, Call(DeleteVm, Print(cid), true), Refusal(true));
    }

    /** collision: a normal return has seen the whole table of answers, with the VM
        untouched throughout, and ends with the VMID seen free. On every return,
        normal or not, nothing is remembered if and only if no create was sent or the
        step ends with the VMID seen free. */
    method Collision(cid: Cid, before: Config) returns (ok: bool, ghost story: Story)
      requires Valid() && VmCid.Valid(cid) && handmade.None?
      modifies `log, `handmade
      ensures Valid() && old(log) <= log && FirstSteps(log, |old(log)|, cid.vmid, az2Node)
      ensures ok ==> EndsFree(log, cid.vmid) && CollisionTable(log, |old(log)|, cid, warn) && NoRaise(log, |old(log)|)
      ensures handmade.None? <==> !Created(log, |old(log)|) || EndsFree(log, cid.vmid)
      ensures Created(log, |old(log)|) ==> Leftover(log, |old(log)|, handmade.Some?)
      ensures !Created(log, |old(log)|) ==> LastCreate(log) == LastCreate(old(log))
      ensures Collided(log, |old(log)|, cid, before, warn, az2Node, settleAttempts, story, ok)
    {
      hide Safe;
      hide Told;
      hide CollisionTable;
      hide LastCreate;
      hide FirstSteps;
      hide Leftover;
      hide MadeQuietly;
      hide Ran;
      hide Removed;
      hide TryScript;
      hide Az1Script;
      hide Snapshot;
      hide Unconfirmed;
      ghost var from := |log|;
      ghost var node, config, looks;
      ok, node, config := TryCollision(cid);
      story := Story(node, config, |log|, ok, 0, |log|, false);
      assert log[..|log|] == log;
      if handmade.None? {
        ok := false;
        return;
      }
      ghost var tried := log;
      var removed;
      removed, looks := RemoveHandmade();
      story := Story(node, config, |tried|, ok, looks, |log|, removed);
      assert log[..|tried|] == tried && log[..|log|] == log;
      hide Remembered;
      FirstStepsStay(tried, log, from, cid.vmid, az2Node);
      LeftoverIs(tried, log, from, handmade.Some?);
      if !ok || !removed {
        ok := false;
        return;
      }
      ghost var gone := log;
      NoRaiseOn(tried, log, from);
      assert EndsFree(gone, cid.vmid);
      ok := Az1Untouched(cid.vmid, before);
      assert log[..|gone|] == gone && log[..|tried|] == tried;
      EndsFreeStays(gone, log, cid.vmid);
      FirstStepsStay(gone, log, from, cid.vmid, az2Node);
      LeftoverStays(gone, log, from, false);
      if ok {
        NoRaiseOn(gone, log, from);
        TableStill(tried, log, from, from, cid, warn);
      }
    }

    /** The create and the calls, up to the first thing that goes wrong. */
    method TryCollision(cid: Cid) returns (ok: bool, ghost node: string, ghost config: Config)
      requires Valid() && VmCid.Valid(cid) && handmade.None?
      modifies `log, `handmade
      ensures Valid() && old(log) <= log && FirstSteps(log, |old(log)|, cid.vmid, az2Node)
      ensures MadeQuietly(log, |old(log)|)
      ensures handmade.Some? <==> Created(log, |old(log)|)
      ensures handmade.Some? ==> handmade.value.vmid == cid.vmid
      ensures handmade.None? ==> !ok && LastCreate(log) == LastCreate(old(log))
      ensures ok ==> CollisionTable(log, |old(log)|, cid, warn) && NoRaise(log, |old(log)|)
      ensures Ran(log, |old(log)|, TryScript(az2Node, node, cid, warn, config), ok)
      ensures az2Node != "" ==> node == az2Node
      ensures handmade.Some? ==> handmade.value.node == node && handmade.value.unconfirmed == Unconfirmed(log, LastCreate(log).value)
    {
      hide Safe;
      hide Told;
      hide Remembered;
      hide CollisionTable;
      hide LastCreate;
      hide FirstSteps;
      hide MadeQuietly;
      hide JustUntouched;
      ghost var from := |log|;
      hide Ran;
      hide MakeScript;
      hide UntouchedScript;
      hide TableScript;
      ok, node, config := CreateHandmade(cid.vmid);
      ghost var vm := Made(node, cid.vmid, config, Status("stopped", ""));
      ghost var make, look, table := MakeScript(az2Node, node, cid.vmid, config), UntouchedScript(vm), TableScript(cid, warn, vm);
      if !ok {
        RanStop(log, from, make, look + table);
        assert make + (look + table) == TryScript(az2Node, node, cid, warn, config);
        return;
      }
      ghost var made := log;
      ok := HandmadeUntouched();
      FirstStepsStay(made, log, from, cid.vmid, az2Node);
      MadeStays(made, log, from);
      QuietlyPrefix(made, log);
      ConfirmedStays(made, log, from, cid.vmid, az2Node);
      RanBoth(made, log, from, make, look, ok);
      if !ok {
        RanStop(log, from, make + look, table);
        return;
      }
      NoRaiseOn(made, log, from);
      ghost var untouched := log;
      ok := CollisionAnswers(cid);
      QuietlyPrefix(untouched, log);
      ConfirmedStays(untouched, log, from, cid.vmid, az2Node);
      RanBoth(untouched, log, from, make + look, table, ok);
      FirstStepsStay(untouched, log, from, cid.vmid, az2Node);
      MadeStays(untouched, log, from);
      if ok {
        NoRaiseOn(untouched, log, from);
        TableStill(log, log, |untouched|, from, cid, warn);
      }
    }

    /** token_mismatch: nothing goes to the second cluster, and a normal return for a
        stamped CID has seen both answers for a wrong token. */
    method TokenMismatch(cid: Cid, before: Config) returns (ok: bool, ghost draws: nat)
      requires Valid()
      modifies `log
      ensures Valid() && old(log) <= log
      ensures forall i | |old(log)| <= i < |log| :: OnAz1(log[i].query)
      ensures LastCreate(log) == LastCreate(old(log))
      ensures ok && Stamped(cid) ==> TokenAnswers(log, |old(log)|, cid)
      ensures Mismatched(log, |old(log)|, draws, cid, before, ok)
    {
      hide Safe;
      hide LastCreate;
      hide Snapshot;
      hide Quietly;
      hide EndsFree;
      hide Told;
      hide Remembered;
      hide Print;
      hide Answered;
      hide Ran;
      hide Drew;
      hide Az1Script;
      draws := 0;
      if !Stamped(cid) {
        ok := true;
        return;
      }
      var wrong;
      wrong, draws := WrongToken(cid);
      if wrong.None? {
        ok := false;
        return;
      }
      ghost var drawn := log;
      ok := WrongAnswers(wrong.value, before, |old(log)|);
      DrewStill(drawn, log, |old(log)|, draws, cid, wrong);
      DrewToken(log, |old(log)|, draws, cid, wrong.value);
      if ok {
        assert wrong.value == cid.(token := wrong.value.token);
        assert WrongTokenAnswers(log, |old(log)|, cid.(token := wrong.value.token));
      }
    }

    /** The two calls with a wrong token, and the look at the VM after them. */
    method WrongAnswers(wrong: Cid, before: Config, ghost from: nat) returns (ok: bool)
      requires Valid() && from <= |log|
      modifies `log
      ensures Valid() && old(log) <= log
      ensures forall i | |old(log)| <= i < |log| :: OnAz1(log[i].query)
      ensures LastCreate(log) == LastCreate(old(log))
      ensures ok ==> WrongTokenAnswers(log, from, wrong)
      ensures Ran(log, |old(log)|, TokenScript(wrong, before), ok)
    {
      hide Safe;
      hide LastCreate;
      hide Snapshot;
      hide Quietly;
      hide EndsFree;
      hide Told;
      hide Remembered;
      hide Print;
      hide Answered;
      hide Ran;
      hide Az1Script;
      ghost var first := log;
      ghost var says := [Says(HasVm, Print(wrong), false, Value(false)), Says(DeleteVm, Print(wrong), false, Refusal(true))];
      var has := AskOn(Call(HasVm, Print(wrong), false));
      if !has.ok || has.reply != Value(false) {
        AskedOne(first, log, says[0], says[1..] + Az1Script(wrong.vmid, before));
        assert [says[0]] + (says[1..] + Az1Script(wrong.vmid, before)) == TokenScript(wrong, before);
        return false;
      }
      AnsweredNow(first, from, log[|log| - 1]);
      ghost var second := log;
      var err := AskOn(Call(DeleteVm, Print(wrong), false));
      AskedTwo(first, second, log, says[0], says[1], Az1Script(wrong.vmid, before));
      if !err.ok || err.reply != Refusal(true) {
        return false;
      }
      AnsweredNow(second, from, log[|log| - 1]);
      ghost var third := log;
      ok := Az1Untouched(wrong.vmid, before);
      RanBoth(third, log, |first|, says, Az1Script(wrong.vmid, before), ok);
      AnsweredStill(second, log, from, Call(HasVm, Print(wrong), false), Value(false));
      AnsweredStill(third, log, from, Call(DeleteVm, Print(wrong), false), Refusal(true));
    }

    method WrongToken(cid: Cid) returns (r: Option<Cid>, ghost draws: nat)
      requires Valid()
      modifies `log
      ensures Valid() && old(log) <= log
      ensures forall i | |old(log)| <= i < |log| :: log[i].query == DrawToken
      ensures LastCreate(log) == LastCreate(old(log))
      ensures r.Some? ==> r.value.vmid == cid.vmid && r.value.cluster == cid.cluster && r.value.token != cid.token
      ensures |log| == |old(log)| + draws && Drew(log, |old(log)|, draws, cid, r)
    {
      hide Safe;
      hide LastCreate;
      hide Snapshot;
      hide Quietly;
      hide EndsFree;
      hide Told;
      hide Remembered;
      for k := 0 to 8
        invariant Valid() && old(log) <= log && LastCreate(log) == LastCreate(old(log))
        invariant forall i | |old(log)| <= i < |log| :: log[i].query == DrawToken
        invariant |log| == |old(log)| + k
        invariant forall i | |old(log)| <= i < |log| :: log[i].answer.ok && log[i].answer.token == cid.token
      {
        var a := AskOn(DrawToken);
        draws := k + 1;
        if !a.ok {
          r := None;
          return;
        }
        if a.token != cid.token {
          r := WithToken(cid, a.token);
          return;
        }
      }
      r, draws := None, 8;
    }

    /** run: whatever the clusters answer, every query was allowed when it was sent; a
        normal return has seen every answer the pass insists on. On every return a VM
        is remembered, and so left behind, if and only if a create was sent and the
        run does not end with the VMID seen free. */
    method Run() returns (ok: bool, ghost whole: Whole)
      requires Valid() && handmade.None?
      modifies `log, `handmade
      ensures Valid() && old(log) <= log
      ensures ok ==> handmade.None? && Parse(vmCid).Some? && PassAnswers(log, |old(log)|, Parse(vmCid).value, warn)
      ensures Created(log, |old(log)|) ==> Parse(vmCid).Some?
      ensures handmade.Some? <==> Created(log, |old(log)|) && !EndsFree(log, Parse(vmCid).value.vmid)
      ensures RanWhole(log, |old(log)|, vmCid, warn, az2Node, settleAttempts, whole, ok)
    {
      hide Passed;
      whole := Whole(0, false, 0, Story("", map[], 0, false, 0, 0, false), false, 0);
      hide Parse;
      hide Safe;
      hide Told;
      hide Remembered;
      hide PassAnswers;
      hide LastCreate;
      hide Snapshot;
      hide Quietly;
      hide EndsFree;
      hide VmCid.Valid;
      if Parse(vmCid).None? {
        ok := false;
        return;
      }
      PrintParse(vmCid);
      ok, whole := RunFrom(Parse(vmCid).value);
    }

    /** The pass from its first query on. */
    method RunFrom(cid: Cid) returns (ok: bool, ghost whole: Whole)
      requires Valid() && VmCid.Valid(cid) && handmade.None?
      modifies `log, `handmade
      ensures Valid() && old(log) < log && log[|old(log)|].query == Az1Config(cid.vmid)
      ensures ok ==> handmade.None? && PassAnswers(log, |old(log)|, cid, warn)
      ensures handmade.Some? <==> Created(log, |old(log)|) && !EndsFree(log, cid.vmid)
      ensures if !log[|old(log)|].answer.ok then |log| == |old(log)| + 1 && !ok
              else Passed(log, |old(log)| + 1, cid, log[|old(log)|].answer.config, warn, az2Node, settleAttempts, whole, ok)
    {
      hide Passed;
      hide Safe;
      hide Told;
      hide Remembered;
      hide PassAnswers;
      hide LastCreate;
      hide Snapshot;
      hide Quietly;
      hide EndsFree;
      hide VmCid.Valid;
      whole := Whole(0, false, 0, Story("", map[], 0, false, 0, 0, false), false, 0);
      var a := AskOn(Az1Config(cid.vmid));
      if !a.ok {
        ok := false;
        return;
      }
      ghost var from := |log|;
      ok, whole := RunSteps(cid, a.config);
      if ok {
        PassEarlier(log, from, |old(log)|, cid, warn);
      }
    }

    /** The three steps in order. */
    method RunSteps(cid: Cid, before: Config) returns (ok: bool, ghost whole: Whole)
      requires Valid() && VmCid.Valid(cid) && handmade.None?
      modifies `log, `handmade
      ensures Valid() && old(log) <= log
      ensures ok ==> handmade.None? && PassAnswers(log, |old(log)|, cid, warn)
      ensures handmade.Some? <==> Created(log, |old(log)|) && !EndsFree(log, cid.vmid)
      ensures !Created(log, |old(log)|) ==> LastCreate(log) == LastCreate(old(log))
      ensures Passed(log, |old(log)|, cid, before, warn, az2Node, settleAttempts, whole, ok)
    {
      hide Ran;
      hide Collided;
      hide Mismatched;
      hide AbsentScript;
      hide Safe;
      hide Told;
      hide Remembered;
      hide AbsentAnswers;
      hide CollisionTable;
      hide TokenAnswers;
      hide LastCreate;
      hide EndsFree;
      hide Leftover;
      hide FirstSteps;
      ghost var from := |log|;
      ghost var story, draws := Story("", map[], 0, false, 0, 0, false), 0;
      ok := AbsentVmid(cid, before);
      whole := Whole(|log|, ok, |log|, story, false, 0);
      assert log[..|log|] == log;
      if !ok {
        return;
      }
      ghost var first := log;
      ok, story := Collision(cid, before);
      whole := Whole(|first|, true, |log|, story, ok, 0);
      assert log[..|first|] == first && log[..|log|] == log;
      if !ok {
        return;
      }
      ghost var second := log;
      ok, draws := TokenMismatch(cid, before);
      whole := Whole(|first|, true, |second|, story, true, draws);
      assert log[..|first|] == first && log[..|second|] == second;
      EndsFreeStays(second, log, cid.vmid);
      AbsentStill(first, log, from, from, cid);
      TableStill(second, log, |first|, from, cid, warn);
      if ok && Stamped(cid) {
        TokenEarlier(log, |second|, from, cid);
      }
    }

    // ------------------------------------------------ the collision answers

    /** One call of the table, and the check that the VM is untouched after it. */
    method AskTable(rpc: Rpc, cid: Cid, want: Reply, ghost from: nat) returns (ok: bool)
      requires Valid() && VmCid.Valid(cid) && handmade.Some? && handmade.value.snapshot.Some? && handmade.value.vmid == cid.vmid
      requires JustUntouched(log, handmade.value.snapshot.value) && from <= |log|
      modifies `log
      ensures Valid() && Quietly(old(log), log) && (ok ==> NoRaise(log, |old(log)|))
      ensures ok ==> JustUntouched(log, handmade.value.snapshot.value)
      ensures ok ==> Answered(log, from, Call(rpc, Print(cid), true), want)
      ensures Ran(log, |old(log)|, RowScript(rpc, cid, want, old(handmade).value.snapshot.value), ok)
    {
      hide Print;
      hide Safe;
      hide Told;
      hide Answered;
      hide JustUntouched;
      hide LastCreate;
      hide Quietly;
      hide Remembered;
      hide Snapshot;
      hide Allowed;
      hide VmCid.Valid;
      hide Ran;
      hide UntouchedScript;
      ghost var first := log;
      ghost var says, after := Says(rpc, Print(cid), true, want), UntouchedScript(handmade.value.snapshot.value);
      MayCall(log, rpc, cid, handmade.value);
      var a := AskOn(Call(rpc, Print(cid), true));
      AskedOne(first, log, says, after);
      if !a.ok || a.reply != want {
        return false;
      }
      AnsweredNow(first, from, log[|log| - 1]);
      ghost var second := log;
      ok := HandmadeUntouched();
      QuietlyPrefix(second, log);
      QuietlyOn(first, second, log);
      RanBoth(second, log, |first|, [says], after, ok);
      AnsweredStill(second, log, from, Call(rpc, Print(cid), true), want);
    }

    /** _collision_answers */
    method CollisionAnswers(cid: Cid) returns (ok: bool)
      requires Valid() && VmCid.Valid(cid) && handmade.Some? && handmade.value.snapshot.Some? && handmade.value.vmid == cid.vmid
      requires JustUntouched(log, handmade.value.snapshot.value)
      modifies `log
      ensures Valid() && Quietly(old(log), log) && (ok ==> NoRaise(log, |old(log)|))
      ensures ok ==> CollisionTable(log, |old(log)|, cid, warn)
      ensures Ran(log, |old(log)|, TableScript(cid, warn, old(handmade).value.snapshot.value), ok)
    {
      hide Print;
      hide Safe;
      hide Told;
      hide LastCreate;
      hide Remembered;
      hide JustUntouched;
      hide Answered;
      hide Ran;
      hide RowScript;
      hide TableScript;
      ghost var from, made := |log|, handmade.value.snapshot.value;
      ok := AskTable(HasVm, cid, Value(warn), from);
      if !ok {
        RanStop(log, from, RowScript(HasVm, cid, Value(warn), made), RowScript(GetDisks, cid, if warn then Listing else Refusal(true), made));
        RowsStop(log, from, cid, warn, made, 0);
        return;
      }
      ghost var l1 := log;
      hide Quietly;
      hide NoRaise;
      ok := AskTable(GetDisks, cid, if warn then Listing else Refusal(true), from);
      QuietlyPrefix(l1, log);
      RanBoth(l1, log, from, RowScript(HasVm, cid, Value(warn), made), RowScript(GetDisks, cid, if warn then Listing else Refusal(true), made), ok);
      if !ok {
        RowsStop(log, from, cid, warn, made, 0);
        QuietlyOn(old(log), l1, log);
        return;
      }
      QuietlyOn(old(log), l1, log);
      NoRaiseOn(l1, log, from);
      ghost var l2 := log;
      QuietlyPrefix(l1, l2);
      assert Quietly(l2, l2) by { QuietlySelf(l2); }
      assert NoRaise(l2, |l2|) by { NoRaiseSelf(l2); }
      var calls := [DeleteVm, RebootVm, SetMetadata];
      var k := 0;
      while k < |calls|
        invariant 0 <= k <= |calls| && Valid() && Quietly(l2, log) && NoRaise(log, |l2|)
        invariant JustUntouched(log, handmade.value.snapshot.value)
        invariant forall j | 0 <= j < k :: Answered(log, from, Call(calls[j], Print(cid), true), Refusal(true))
        invariant ok && Ran(log, from, Rows(cid, warn, made, k), true)
      {
        ghost var before := log;
        QuietlyPrefix(l2, log);
        ok := AskTable(calls[k], cid, Refusal(true), from);
        QuietlyPrefix(before, log);
        QuietlyOn(l2, before, log);
        RanBoth(before, log, from, Rows(cid, warn, made, k), RowScript(calls[k], cid, Refusal(true), made), ok);
        NextRow(cid, warn, made, k);
        if !ok {
          RowsStop(log, from, cid, warn, made, k + 1);
          QuietlyOn(old(log), l2, log);
          return;
        }
        NoRaiseOn(before, log, |l2|);
        forall j | 0 <= j < k ensures Answered(log, from, Call(calls[j], Print(cid), true), Refusal(true)) {
          AnsweredStill(before, log, from, Call(calls[j], Print(cid), true), Refusal(true));
        }
        k := k + 1;
      }
      QuietlyPrefix(l2, log);
      QuietlyOn(old(log), l2, log);
      NoRaiseOn(l2, log, from);
      AnsweredStill(l1, log, from, Call(HasVm, Print(cid), true), Value(warn));
      AnsweredStill(l2, log, from, Call(GetDisks, Print(cid), true), if warn then Listing else Refusal(true));
      assert calls[0] == DeleteVm && calls[1] == RebootVm && calls[2] == SetMetadata;
    }

    // ---------------------------------------------------- the hand-made VM

    /** _create_handmade: a VM is remembered exactly when its create was sent. */
    method CreateHandmade(vmid: nat) returns (ok: bool, ghost node: string, ghost config: Config)
      requires Valid() && handmade.None?
      modifies `log, `handmade
      ensures Valid() && old(log) <= log && FirstSteps(log, |old(log)|, vmid, az2Node) && MadeQuietly(log, |old(log)|)
      ensures handmade.Some? <==> Created(log, |old(log)|)
      ensures handmade.Some? ==> handmade.value.vmid == vmid
      ensures handmade.None? ==> LastCreate(log) == LastCreate(old(log))
      ensures ok ==> handmade.Some? && handmade.value.snapshot.Some? && NoRaise(log, |old(log)|)
      ensures Ran(log, |old(log)|, MakeScript(az2Node, node, vmid, config), ok)
      ensures az2Node != "" ==> node == az2Node
      ensures handmade.Some? ==>
        handmade == Some(Handmade(node, vmid, if ok then Some(Made(node, vmid, config, Status("stopped", ""))) else None,
                                  Unconfirmed(log, LastCreate(log).value)))
    {
      hide Safe;
      hide Told;
      hide Remembered;
      hide LastCreate;
      hide Ran;
      hide BornScript;
      ghost var first := log;
      node, config := az2Node, map[];
      ghost var look := [FreeLook(vmid)];
      ghost var ask := if az2Node == "" then [OneNode(node)] else [];
      ok := RequireFree(vmid);
      if !ok {
        RanStop(log, |first|, look, ask + BornScript(node, vmid, config));
        assert look + (ask + BornScript(node, vmid, config)) == MakeScript(az2Node, node, vmid, config);
        return;
      }
      ghost var second := log;
      var chosen := az2Node;
      if az2Node == "" {
        var a := AskOn(Nodes);
        node := if a.nodes == [] then "" else a.nodes[0];
        ask := [OneNode(node)];
        AskedOne(second, log, OneNode(node), []);
        assert [OneNode(node)] + [] == ask;
        RanBoth(second, log, |first|, look, ask, Meets(OneNode(node), a));
        if !a.ok || a.nodes == [] {
          RanStop(log, |first|, look + ask, BornScript(node, vmid, config));
          ok := false;
          return;
        }
        chosen := a.nodes[0];
      } else {
        assert look + [] == look;
      }
      ghost var third := log;
      ok, config := MakeOn(chosen, vmid);
      RanBoth(third, log, |first|, look + ask, BornScript(node, vmid, config), ok);
    }

    /** The create, from the moment its VMID is seen free. */
    method MakeOn(node: string, vmid: nat) returns (ok: bool, ghost config: Config)
      requires Valid() && handmade.None? && JustFree(log, vmid)
      modifies `log, `handmade
      ensures Valid() && old(log) <= log && LastCreate(log) == Some(|old(log)|) && Making(log, |old(log)|)
      ensures handmade.Some? && handmade.value.vmid == vmid
      ensures ok ==> handmade.value.snapshot.Some? && NoRaise(log, |old(log)|)
      ensures Ran(log, |old(log)|, BornScript(node, vmid, config), ok)
      ensures handmade == Some(Handmade(node, vmid, if ok then Some(Made(node, vmid, config, Status("stopped", ""))) else None,
                                        Unconfirmed(log, |old(log)|)))
    {
      hide Safe;
      hide Told;
      hide Name;
      hide Snapshot;
      ghost var c := |log|;
      assert Allowed(log, Create(node, vmid, Name(vmid)));
      hide JustFree;
      hide LastCreate;
      hide Ran;
      hide UpScript;
      ghost var first, create := log, Accepted(Create(node, vmid, Name(vmid)));
      config := map[];
      var made := Ask(Create(node, vmid, Name(vmid)));
      handmade := Some(Handmade(node, vmid, None, true));
      JustCreated(log, c);
      AskedOne(first, log, create, [Accepted(Await(node))] + UpScript(node, vmid, config));
      if !made.ok {
        ok := false;
        return;
      }
      ghost var second := log;
      ok, config := AwaitMade(node, vmid, c);
      RanBoth(second, log, |first|, [create], [Accepted(Await(node))] + UpScript(node, vmid, config), ok);
    }

    /** The create's task, and the first look at the VM. */
    method AwaitMade(node: string, vmid: nat, ghost c: nat) returns (ok: bool, ghost config: Config)
      requires Valid() && handmade == Some(Handmade(node, vmid, None, true))
      requires |log| == c + 1 && log[c].query == Create(node, vmid, Name(vmid)) && log[c].answer.ok
      modifies `log, `handmade
      ensures Valid() && old(log) < log && LastCreate(log) == Some(c) && Making(log, c)
      ensures handmade.Some? && handmade.value.vmid == vmid
      ensures ok ==> handmade.value.snapshot.Some? && NoRaise(log, c)
      ensures Ran(log, |old(log)|, [Accepted(Await(node))] + UpScript(node, vmid, config), ok)
      ensures handmade == Some(Handmade(node, vmid, if ok then Some(Made(node, vmid, config, Status("stopped", ""))) else None,
                                        Unconfirmed(log, c)))
    {
      hide Safe;
      hide Told;
      hide Name;
      hide Snapshot;
      hide LastCreate;
      hide Remembered;
      hide Ran;
      hide UpScript;
      ghost var first := log;
      config := map[];
      var task := Ask(Await(node));
      NotYetUp(log, c, node, vmid, true);
      NotYetUp(log, c, node, vmid, false);
      AskedOne(first, log, Accepted(Await(node)), UpScript(node, vmid, config));
      if !task.ok {
        ok := false;
        return;
      }
      handmade := Some(Handmade(node, vmid, None, false));
      ghost var second := log;
      ok, config := LookAtMade(node, vmid, c);
      RanBoth(second, log, |first|, [Accepted(Await(node))], UpScript(node, vmid, config), ok);
    }

    /** The first look at the VM, which becomes its snapshot. */
    method LookAtMade(node: string, vmid: nat, ghost c: nat) returns (ok: bool, ghost config: Config)
      requires Valid() && handmade == Some(Handmade(node, vmid, None, false))
      requires |log| == c + 2 && log[c].query == Create(node, vmid, Name(vmid)) && log[c + 1].query == Await(node)
      requires NoRaise(log, c)
      modifies `log, `handmade
      ensures Valid() && old(log) < log && LastCreate(log) == Some(c) && Making(log, c)
      ensures handmade.Some? && handmade.value.vmid == vmid
      ensures ok ==> handmade.value.snapshot.Some? && NoRaise(log, c)
      ensures Ran(log, |old(log)|, UpScript(node, vmid, config), ok)
      ensures handmade == Some(Handmade(node, vmid, if ok then Some(Made(node, vmid, config, Status("stopped", ""))) else None, false))
    {
      hide Safe;
      hide Told;
      hide Name;
      hide Snapshot;
      hide LastCreate;
      hide Remembered;
      hide NamedOurs;
      hide Untagged;
      hide OurName;
      hide NoTags;
      hide Ran;
      ghost var first := log;
      var seen := Ask(ReadConfig(node, vmid));
      NotYetUp(log, c, node, vmid, false);
      config := seen.config;
      ghost var up := UpScript(node, vmid, config);
      OursIff(seen.config, vmid);
      if !seen.ok || !NamedOurs(seen.config, vmid) || !Untagged(seen.config) {
        AskedOne(first, log, up[0], [up[1]]);
        assert [up[0]] + [up[1]] == up;
        ok := false;
        return;
      }
      ghost var second := log;
      var status := Ask(ReadStatus(node, vmid));
      UpAtLast(log, c, node, vmid);
      AskedTwo(first, second, log, up[0], up[1], []);
      assert [up[0], up[1]] + [] == up;
      if !status.ok || status.status != Status("stopped", "") {
        ok := false;
        return;
      }
      handmade := Some(Handmade(node, vmid, Some(Made(node, vmid, seen.config, status.status)), false));
      ok := true;
    }

    /** _assert_handmade_untouched */
    method HandmadeUntouched() returns (ok: bool)
      requires Valid() && handmade.Some? && handmade.value.snapshot.Some?
      modifies `log
      ensures Valid() && Quietly(old(log), log)
      ensures ok ==> NoRaise(log, |old(log)|) && JustUntouched(log, handmade.value.snapshot.value)
      ensures Ran(log, |old(log)|, UntouchedScript(handmade.value.snapshot.value), ok)
    {
      hide Safe;
      hide Told;
      hide Ran;
      hide NamedOurs;
      hide OurName;
      hide Untagged;
      hide NoTags;
      var made := handmade.value.snapshot.value;
      ghost var start := log;
      ghost var shows, status := Shows(made.node, made.vmid, made.config), ShowsStatus(made.node, made.vmid, made.status);
      var now := AskOn(ReadConfig(made.node, made.vmid));
      NoDifferences(made.config, now.config);
      OursIff(now.config, made.vmid);
      if !now.ok || !NamedOurs(now.config, made.vmid) || Differences(made.config, now.config) != {} {
        AskedOne(start, log, shows, [status]);
        assert [shows] + [status] == UntouchedScript(made);
        return false;
      }
      ghost var middle := log;
      var state := AskOn(ReadStatus(made.node, made.vmid));
      AskedTwo(start, middle, log, shows, status, []);
      assert [shows, status] + [] == UntouchedScript(made);
      ok := state.ok && state.status == made.status;
    }

    /** _remove_handmade. Success ends with the VMID seen free and forgets the VM; a
        failure forgets nothing, and some look did not see the VMID free. A destroy is
        sent only after a look that found a guest. */
    method RemoveHandmade() returns (ok: bool, ghost looks: nat)
      requires Valid() && handmade.Some?
      modifies `log, `handmade
      ensures Valid() && old(log) <= log && LastCreate(log) == LastCreate(old(log))
      ensures ok ==> handmade.None? && log != [] && SeenFree(log[|log| - 1], old(handmade).value.vmid)
      ensures ok ==> NoRaise(log, |old(log)|)
      ensures !ok ==> handmade == old(handmade) && !EndsFree(log, handmade.value.vmid) && NotSeenFree(log, |old(log)|)
      ensures Destroys(log, |old(log)|) ==> SeenHeld(log, |old(log)|)
      ensures ok && SeenHeld(log, |old(log)|) ==> Destroys(log, |old(log)|)
      ensures var ours := old(handmade).value;
        Removed(log, |old(log)|, looks, if ours.unconfirmed then settleAttempts else 0, ours.node, ours.vmid, ours.snapshot, ok)
    {
      hide Safe;
      hide Snapshot;
      hide Quietly;
      hide Told;
      hide Remembered;
      hide LastCreate;
      var ours := handmade.value;
      hide Ran;
      hide DestroyScript;
      var answered, holds := HoldsVmid(ours);
      looks := |log| - |old(log)|;
      if !answered {
        ok := false;
        return;
      }
      if !holds {
        handmade := None;
        ok := true;
        return;
      }
      ghost var polled := log;
      ok := DestroyHeld(ours, |old(log)|);
      PolledStill(polled, log, |old(log)|, looks, ours.vmid, if ours.unconfirmed then settleAttempts else 0);
      if ok {
        handmade := None;
      }
    }

    /** The rest of the removal, once a guest was found on the VMID. */
    method DestroyHeld(ours: Handmade, ghost from: nat) returns (ok: bool)
      requires Valid() && handmade == Some(ours) && SeenHeld(log, from) && NoRaise(log, from) && from <= |log|
      modifies `log
      ensures Valid() && old(log) <= log && LastCreate(log) == LastCreate(old(log))
      ensures ok ==> SeenFree(log[|log| - 1], ours.vmid) && NoRaise(log, from) && Destroys(log, from)
      ensures !ok ==> !EndsFree(log, ours.vmid)
      ensures log != [] && SeenHeld(log, from) && NotSeenFree(log, from)
      ensures Ran(log, |old(log)|, DestroyScript(ours.node, ours.vmid, ours.snapshot), ok)
    {
      hide Ran;
      hide ProofScript;
      ghost var proof := ProofScript(ours.node, ours.vmid, ours.snapshot);
      ghost var destroy := [Accepted(Destroy(ours.node, ours.vmid)), Accepted(Await(ours.node)), FreeLook(ours.vmid)];
      hide Safe;
      hide Quietly;
      hide EndsFree;
      hide Told;
      hide Remembered;
      hide MayDestroy;
      hide Snapshot;
      hide LastCreate;
      ghost var held := log;
      ok := ProvenOurs(ours);
      HeldStays(held, log, from);
      if !ok {
        RanStop(log, |held|, proof, destroy);
        return;
      }
      ghost var proven := log;
      ok := SendDestroy(ours);
      RanBoth(proven, log, |held|, proof, destroy, ok);
      HeldStays(proven, log, from);
      if !ok {
        return;
      }
      NoRaiseOn(held, proven, from);
      NoRaiseOn(proven, log, from);
    }

    /** The destroy, its task, and the last look. */
    method SendDestroy(ours: Handmade) returns (ok: bool)
      requires Valid() && handmade == Some(ours) && MayDestroy(log, ours.node, ours.vmid)
      modifies `log
      ensures Valid() && old(log) < log && LastCreate(log) == LastCreate(old(log))
      ensures log[|old(log)|].query == Destroy(ours.node, ours.vmid)
      ensures ok ==> SeenFree(log[|log| - 1], ours.vmid) && NoRaise(log, |old(log)|)
      ensures !ok ==> !EndsFree(log, ours.vmid)
      ensures Ran(log, |old(log)|, [Accepted(Destroy(ours.node, ours.vmid)), Accepted(Await(ours.node)), FreeLook(ours.vmid)], ok)
    {
      hide Safe;
      hide Quietly;
      hide Told;
      hide Remembered;
      hide Snapshot;
      hide LastCreate;
      hide Ran;
      ghost var first := log;
      ghost var destroy, wait, look := Accepted(Destroy(ours.node, ours.vmid)), Accepted(Await(ours.node)), FreeLook(ours.vmid);
      var destroyed := AskOn(Destroy(ours.node, ours.vmid));
      if !destroyed.ok {
        AskedOne(first, log, destroy, [wait, look]);
        assert [destroy] + [wait, look] == [destroy, wait, look];
        return false;
      }
      ghost var second := log;
      var task := AskOn(Await(ours.node));
      AskedTwo(first, second, log, destroy, wait, [look]);
      assert [destroy, wait] + [look] == [destroy, wait, look];
      if !task.ok {
        return false;
      }
      ghost var third := log;
      ok := RequireFree(ours.vmid);
      RanBoth(third, log, |first|, [destroy, wait], [look], ok);
    }

    /** The checks before a destroy. */
    method ProvenOurs(ours: Handmade) returns (ok: bool)
      requires Valid() && handmade == Some(ours)
      modifies `log
      ensures Valid() && old(log) < log && LastCreate(log) == LastCreate(old(log))
      ensures ok ==> MayDestroy(log, ours.node, ours.vmid) && NoRaise(log, |old(log)|)
      ensures !ok ==> !EndsFree(log, ours.vmid)
      ensures Ran(log, |old(log)|, ProofScript(ours.node, ours.vmid, ours.snapshot), ok)
    {
      hide Safe;
      hide Told;
      match ours.snapshot
      case Some(made) => ok := ProvenUnchanged(ours, made);
      case None => ok := ProvenUntagged(ours);
    }

    /** With a snapshot: the VM is read as it came up. */
    method ProvenUnchanged(ours: Handmade, made: Made) returns (ok: bool)
      requires Valid() && handmade == Some(ours) && ours.snapshot == Some(made)
      modifies `log
      ensures Valid() && old(log) < log && LastCreate(log) == LastCreate(old(log))
      ensures ok ==> MayDestroy(log, ours.node, ours.vmid) && NoRaise(log, |old(log)|)
      ensures !ok ==> !EndsFree(log, ours.vmid)
      ensures Ran(log, |old(log)|, [Shows(ours.node, ours.vmid, made.config), ShowsStatus(ours.node, ours.vmid, made.status)], ok)
    {
      hide Safe;
      hide Told;
      hide Ran;
      hide OurName;
      hide NamedOurs;
      hide Untagged;
      hide NoTags;
      hide LastCreate;
      hide Snapshot;
      ghost var start := log;
      ghost var shows, status := Shows(ours.node, ours.vmid, made.config), ShowsStatus(ours.node, ours.vmid, made.status);
      var config := AskOn(ReadConfig(ours.node, ours.vmid));
      NoDifferences(made.config, config.config);
      OursIff(config.config, ours.vmid);
      if !config.ok || !NamedOurs(config.config, ours.vmid) || Differences(made.config, config.config) != {} {
        AskedOne(start, log, shows, [status]);
        assert [shows] + [status] == [shows, status];
        return false;
      }
      ghost var middle := log;
      var state := AskOn(ReadStatus(ours.node, ours.vmid));
      AskedTwo(start, middle, log, shows, status, []);
      assert [shows, status] + [] == [shows, status];
      ok := state.ok && state.status == made.status;
    }

    /** Without one: the VM bears this run's name and no tag. */
    method ProvenUntagged(ours: Handmade) returns (ok: bool)
      requires Valid() && handmade == Some(ours) && ours.snapshot == None
      modifies `log
      ensures Valid() && old(log) < log && LastCreate(log) == LastCreate(old(log))
      ensures ok ==> MayDestroy(log, ours.node, ours.vmid) && NoRaise(log, |old(log)|)
      ensures !ok ==> !EndsFree(log, ours.vmid)
      ensures Ran(log, |old(log)|, [ShowsOurs(ours.node, ours.vmid)], ok)
    {
      hide Safe;
      hide Told;
      hide Ran;
      hide LastCreate;
      hide Snapshot;
      hide NamedOurs;
      hide Untagged;
      hide EndsFree;
      hide Quietly;
      ghost var start := log;
      var config := AskOn(ReadConfig(ours.node, ours.vmid));
      AskedOne(start, log, ShowsOurs(ours.node, ours.vmid), []);
      assert [ShowsOurs(ours.node, ours.vmid)] + [] == [ShowsOurs(ours.node, ours.vmid)];
      ok := config.ok && NamedOurs(config.config, ours.vmid) && Untagged(config.config);
      OursIff(config.config, ours.vmid);
      NotFreeAfterRead(log, ours.vmid);
    }

    /** _holds_vmid: looks only, and the last one decides. */
    method HoldsVmid(ours: Handmade) returns (answered: bool, holds: bool)
      requires Valid() && handmade == Some(ours)
      modifies `log
      ensures Valid() && old(log) < log && LastCreate(log) == LastCreate(old(log))
      ensures forall i | |old(log)| <= i < |log| :: log[i].query == InUse(ours.vmid)
      ensures forall i | |old(log)| <= i < |log| - 1 :: SeenFree(log[i], ours.vmid)
      ensures answered == log[|log| - 1].answer.ok && holds == log[|log| - 1].answer.inUse
      ensures Polled(log, |old(log)|, |log| - |old(log)|, ours.vmid, if ours.unconfirmed then settleAttempts else 0)
    {
      hide Safe;
      hide Snapshot;
      hide Quietly;
      hide EndsFree;
      hide Told;
      hide Remembered;
      hide LastCreate;
      var a := AskOn(InUse(ours.vmid));
      if !a.ok || a.inUse || !ours.unconfirmed {
        return a.ok, a.inUse;
      }
      for k := 0 to settleAttempts
        invariant Valid() && old(log) < log && LastCreate(log) == LastCreate(old(log))
        invariant forall i | |old(log)| <= i < |log| :: SeenFree(log[i], ours.vmid)
        invariant |log| == |old(log)| + 1 + k
      {
        a := AskOn(InUse(ours.vmid));
        if !a.ok || a.inUse {
          return a.ok, a.inUse;
        }
      }
      return true, false;
    }
  }

  /** From its create on: awaited unless it raised, and neither looked at nor
      destroyed. */
  predicate Making(log: seq<Event>, c: nat) {
    && c < |log| && (log[c].answer.ok ==> c + 1 < |log| && log[c + 1].query.Await?)
    && forall i | c < i < |log| :: !log[i].query.InUse? && !log[i].query.Destroy?
  }

  /** A log that ends with a read of the second cluster does not end with a free look. */
  lemma NotFreeAfterRead(log: seq<Event>, vmid: nat)
    requires log != [] && log[|log| - 1].query.ReadConfig?
    ensures !EndsFree(log, vmid)
  {
  }

  /** Whether a create is confirmed is decided by the query after it. */
  lemma ConfirmedStays(made: seq<Event>, log: seq<Event>, from: nat, vmid: nat, node: string)
    requires FirstSteps(made, from, vmid, node) && Created(made, from) && NoRaise(made, from)
    requires made <= log && LastCreate(log) == LastCreate(made)
    ensures Unconfirmed(log, LastCreate(log).value) == Unconfirmed(made, LastCreate(made).value)
  {
  }

  /** A part of the absent-VMID script that ended it. */
  lemma AbsentStop(log: seq<Event>, from: nat, cid: Cid, before: Config, done: seq<Expect>, rest: seq<Expect>)
    requires Ran(log, from, done, false) && done + rest == AbsentScript(cid, before)
    ensures Ran(log, from, AbsentScript(cid, before), false)
  {
    hide Ran;
    RanStop(log, from, done, rest);
  }

  /** One query of a script, and the rest of it when the answer was not the one wanted. */
  lemma AskedOne(before: seq<Event>, log: seq<Event>, x: Expect, rest: seq<Expect>)
    requires |log| == |before| + 1 && before <= log && log[|before|].query == QueryOf(x)
    ensures Meets(x, log[|before|].answer) ==> Ran(log, |before|, [x], true)
    ensures !Meets(x, log[|before|].answer) ==> Ran(log, |before|, [x] + rest, false)
  {
    hide Meets;
    hide QueryOf;
  }

  /** Two queries of a script, the first answered as wanted. */
  lemma AskedTwo(before: seq<Event>, middle: seq<Event>, log: seq<Event>, x: Expect, y: Expect, rest: seq<Expect>)
    requires |middle| == |before| + 1 && |log| == |middle| + 1 && before <= middle <= log
    requires log[|before|].query == QueryOf(x) && Meets(x, log[|before|].answer) && log[|middle|].query == QueryOf(y)
    ensures Meets(y, log[|middle|].answer) ==> Ran(log, |before|, [x, y], true)
    ensures !Meets(y, log[|middle|].answer) ==> Ran(log, |before|, [x, y] + rest, false)
  {
    hide Meets;
    hide QueryOf;
  }

  // ------------------------------------------------------ what can be left

  function Plainly(ok: bool): Answer { Answer(ok, false, [], map[], Status("", ""), OtherValue, "") }

  /** After the first look every query raises. */
  function CutOff(n: nat): Answer { Plainly(n == 0) }

  /** Only the wait for the create's task raises. */
  function TaskLost(n: nat): Answer { Plainly(n != 2) }

  lemma {:induction false} NeverFree(log: seq<Event>, vmid: nat)
    requires |log| >= 2 && log[1].query.Create?
    requires forall i | 1 <= i < |log| :: !log[i].answer.ok
    ensures !EndsFree(log, vmid)
    decreases |log|
  {
    if |log| == 2 {
      assert !OnAz1(log[1].query);
    } else {
      NeverFree(log[..|log| - 1], vmid);
    }
  }

  /** A failing collision step that leaves its VM: the second cluster goes away right
      after the create was sent. */
  method LeavesVm() returns (p: Pass, ok: bool)
    ensures !ok && p.handmade.Some? && Created(p.log, 0) && !EndsFree(p.log, 100)
  {
    hide Collided;
    hide Safe;
    hide Snapshot;
    hide CollisionTable;
    p := new Pass("100", "pve2", false, 15, CutOff);
    ghost var story;
    ok, story := p.Collision(Cid(100, "", ""), map[]);
    assert p.log[0].answer == CutOff(0) && p.log[1].answer == CutOff(1);
    NeverFree(p.log, 100);
  }

  /** A failing collision step that forgets its VM: the create was accepted, the wait
      for its task is lost, and every look until the poll ends sees the VMID free.
      Nothing is remembered and no destroy was sent, though the create may yet land. */
  method ForgetsVm() returns (p: Pass, ok: bool)
    ensures !ok && p.handmade.None? && !Destroys(p.log, 0)
    ensures |p.log| > 2 && p.log[1].query.Create? && p.log[1].answer.ok && p.log[2].query.Await? && !p.log[2].answer.ok
  {
    hide Collided;
    hide Safe;
    hide Snapshot;
    hide CollisionTable;
    p := new Pass("100", "pve2", false, 15, TaskLost);
    ghost var story;
    ok, story := p.Collision(Cid(100, "", ""), map[]);
    assert p.log[0].answer == TaskLost(0) && p.log[1].answer == TaskLost(1) && p.log[2].answer == TaskLost(2);
    assert forall i | 2 < i < |p.log| :: p.log[i].answer == TaskLost(i);
  }

  /** The answers a whole pass insists on. */
  ghost predicate PassAnswers(log: seq<Event>, from: nat, cid: Cid, warn: bool) {
    && AbsentAnswers(log, from, cid)
    && CollisionTable(log, from, cid, warn)
    && (Stamped(cid) ==> TokenAnswers(log, from, cid))
  }

  lemma PassEarlier(log: seq<Event>, from: nat, earlier: nat, cid: Cid, warn: bool)
    requires PassAnswers(log, from, cid, warn) && earlier <= from
    ensures PassAnswers(log, earlier, cid, warn)
  {
    hide AbsentAnswers;
    hide CollisionTable;
    hide TokenAnswers;
    AbsentStill(log, log, from, earlier, cid);
    TableStill(log, log, from, earlier, cid, warn);
    if Stamped(cid) { TokenEarlier(log, from, earlier, cid); }
  }

  /** Any call may follow the check that the hand-made VM is untouched. */
  lemma MayCall(log: seq<Event>, rpc: Rpc, cid: Cid, h: Handmade)
    requires VmCid.Valid(cid) && h.vmid == cid.vmid && h.snapshot.Some?
    requires Remembered(log, h) && JustUntouched(log, h.snapshot.value)
    ensures Allowed(log, Call(rpc, Print(cid), true))
  {
    ParsePrint(cid);
    hide Parse;
    hide Print;
    hide JustUntouched;
    hide Snapshot;
  }

  /** A CID that names a cluster may be sent anywhere. */
  lemma MayCallKnown(log: seq<Event>, rpc: Rpc, cid: Cid)
    requires VmCid.Valid(cid) && KnownCluster(cid)
    ensures Allowed(log, Call(rpc, Print(cid), true))
  {
    ParsePrint(cid);
    hide Parse;
    hide Print;
  }

  // ------------------------------------------------------- the log's memory

  /** The log shows this VM being made, with this snapshot. */
  ghost predicate Remembered(log: seq<Event>, h: Handmade) {
    && LastCreate(log).Some? && log[LastCreate(log).value].query == Create(h.node, h.vmid, Name(h.vmid))
    && Snapshot(log) == h.snapshot
    && (h.snapshot.Some? ==> h.snapshot.value.node == h.node && h.snapshot.value.vmid == h.vmid)
  }

  lemma RememberedStays(log: seq<Event>, e: Event, h: Option<Handmade>)
    requires h.Some? ==> Remembered(log, h.value)
    requires !e.query.Create? && (e.query.ReadStatus? ==> Snapshot(log).Some?)
    ensures h.Some? ==> Remembered(log + [e], h.value)
  {
    if h.Some? {
      SnapshotStays(log, e);
      hide Snapshot;
    }
  }

  lemma JustCreated(log: seq<Event>, c: nat)
    requires |log| == c + 1 && log[c].query.Create?
    ensures LastCreate(log) == Some(c) && Snapshot(log) == None
  {
  }

  lemma NotYetUp(log: seq<Event>, c: nat, node: string, vmid: nat, unconfirmed: bool)
    requires c + 1 < |log| <= c + 3 && log[c].query == Create(node, vmid, Name(vmid))
    requires forall i | c < i < |log| :: !log[i].query.Create?
    ensures LastCreate(log) == Some(c) && Remembered(log, Handmade(node, vmid, None, unconfirmed))
  {
    hide Name;
    LastCreateIs(log, c);
  }

  lemma UpAtLast(log: seq<Event>, c: nat, node: string, vmid: nat)
    requires |log| == c + 4 && log[c].query == Create(node, vmid, Name(vmid)) && log[c + 1].query == Await(node)
    requires log[c + 2].query == ReadConfig(node, vmid) && log[c + 3].query == ReadStatus(node, vmid)
    requires log[c + 1].answer.ok && log[c + 2].answer.ok
    requires NamedOurs(log[c + 2].answer.config, vmid) && Untagged(log[c + 2].answer.config)
    ensures var status := log[c + 3].answer;
      Remembered(log, Handmade(node, vmid,
        if status.ok && status.status == Status("stopped", "")
        then Some(Made(node, vmid, log[c + 2].answer.config, status.status)) else None, false))
    ensures LastCreate(log) == Some(c)
  {
    hide NamedOurs;
    hide Untagged;
    hide Name;
    LastCreateIs(log, c);
  }

  lemma {:induction false} LastCreateIs(log: seq<Event>, c: nat)
    requires c < |log| && log[c].query.Create?
    requires forall i | c < i < |log| :: !log[i].query.Create?
    ensures LastCreate(log) == Some(c)
  {
    if c < |log| - 1 {
      LastCreateIs(log[..|log| - 1], c);
    }
  }
}
