/** The journal proxy when its client has at most one write in flight: what a
    withheld response guarantees from then on. */
module JournalProxySerial {
  import opened Text
  import opened JournalProxy

  /** Every handler has finished. */
  predicate Idle(s: State) { forall t | t in s.threads :: s.threads[t].Done? }

  /** A run in which a write arrives only when no other is in flight. */
  predicate Serial(cfg: Config, s: State, actions: seq<Action>)
    decreases |actions|
  {
    actions == [] ||
    ((actions[0].Arrive? ==> Idle(s))
     && Next(cfg, s, actions[0]).Some?
     && Serial(cfg, Next(cfg, s, actions[0]).value, actions[1..]))
  }

  predicate HasCut(s: State) { exists i :: 0 <= i < |s.log| && s.log[i].CutEvent? }

  predicate HasAbort(s: State) { exists i :: 0 <= i < |s.log| && s.log[i].AbortEvent? }

  /** The receipt this row's response leaves in the evidence. */
  function ReceiptFor(row: Row, resp: Response): Option<Receipt> {
    if resp.payload.Upid? then Some(Receipt(row.allocation, row.step, resp.payload.upid)) else None
  }

  /** No fault has used up the receipt file. */
  predicate Unspent(sh: Shared) { sh.receipt.None? && sh.receiptFile.NoFile? }

  predicate LastRow(s: State, row: nat) { row + 1 == |s.shared.mutations| }

  /** The fault belongs to this row, and its receipt, if any, is in the evidence. */
  predicate Attributed(s: State, row: nat, resp: Response) {
    && LastRow(s, row)
    && s.shared.poisoned && s.shared.withheld
    && s.shared.faultStep == Some(s.shared.mutations[row])
    && s.shared.receipt == ReceiptFor(s.shared.mutations[row], resp)
  }

  predicate ReceiptDurable(s: State, row: nat, resp: Response) {
    resp.payload.Upid? ==>
      && row < |s.shared.mutations|
      && s.shared.receiptFile == Retained(ReceiptFor(s.shared.mutations[row], resp).value)
  }

  /** What is known at each program point of the write in flight. */
  predicate PointOk(s: State, pc: Pc) {
    match pc
    case Arrived(_) => true
    case Failing => true
    case Done(_) => true
    case Admitted(row) => Forwardable(s, row)
    case Sent(row) => Forwardable(s, row)
    case Answered(row, _) => Forwardable(s, row)
    case Passing(row, _) => Forwardable(s, row)
    case Faulting(row, resp) => Forwardable(s, row) && Unspent(s.shared) && !HasAbort(s)
    case Recorded(row, resp) =>
      !HasCut(s) && !HasAbort(s) && Attributed(s, row, resp) && s.shared.receiptFile.NoFile?
    case Cutting(row, resp) =>
      !HasCut(s) && !HasAbort(s) && Attributed(s, row, resp) && ReceiptDurable(s, row, resp)
    case Aborting(row, resp, stage) => !HasCut(s) && !HasAbort(s) && LastRow(s, row)
  }

  predicate Forwardable(s: State, row: nat) {
    !HasCut(s) && LastRow(s, row) && (s.shared.mode != Observe ==> Unspent(s.shared))
  }

  /** Handler `t` is the only one that may still be in flight. */
  ghost predicate Only(s: State, t: nat) {
    t in s.threads && forall u | u in s.threads && u != t :: s.threads[u].Done?
  }

  /** An unpoisoned proxy that still injects has its receipt file to itself,
      except while it is lifting the poison. */
  predicate FileFree(sh: Shared, pc: Pc) {
    !pc.Aborting? && !sh.poisoned && sh.mode != Observe ==> Unspent(sh)
  }

  /** The invariant, for the write in flight or the last one that was. */
  ghost predicate InFlight(s: State, t: nat) {
    && Only(s, t)
    && PointOk(s, s.threads[t])
    && FileFree(s.shared, s.threads[t])
    && (HasAbort(s) ==> s.shared.mode == Observe && !HasCut(s))
    && CutsFinal(s)
  }

  ghost predicate SerialInv(s: State) {
    (exists t :: InFlight(s, t)) || (s.threads == map[] && s.log == [] && Unspent(s.shared))
  }

  /** What a withheld response guarantees for the rest of the run. */
  ghost predicate CutsFinal(s: State) {
    forall i | 0 <= i < |s.log| && s.log[i].CutEvent? ::
      && s.shared.poisoned && s.shared.withheld
      && s.log[i].row < |s.shared.mutations|
      && s.shared.faultStep == Some(s.shared.mutations[s.log[i].row])
      && ReceiptDurable(s, s.log[i].row, s.log[i].resp)
      && forall j | i < j < |s.log| :: s.log[j].Poison?
  }

  /** The event a step notes, if any. */
  lemma Noted(cfg: Config, s: State, a: Action) returns (e: Option<Event>)
    requires Next(cfg, s, a).Some?
    ensures Next(cfg, s, a).value.log == s.log + (if e.Some? then [e.value] else [])
    ensures e.Some? && e.value.CutEvent? ==> a.CutOff?
    ensures e.Some? && e.value.AbortEvent? ==>
      a.AbortStep? && s.threads[a.t].Aborting? && s.threads[a.t].stage > 1
  {
    var s' := Next(cfg, s, a).value;
    e := if s'.log == s.log then None else Some(s'.log[|s'.log| - 1]);
  }

  lemma HistoryGrows(cfg: Config, s: State, a: Action)
    requires Next(cfg, s, a).Some?
    ensures var s' := Next(cfg, s, a).value;
      && (!a.CutOff? ==> (HasCut(s') <==> HasCut(s)))
      && (HasAbort(s) ==> HasAbort(s'))
      && (!(a.AbortStep? && s.threads[a.t].Aborting? && s.threads[a.t].stage > 1) ==> (HasAbort(s') <==> HasAbort(s)))
  {
    var s' := Next(cfg, s, a).value;
    var e := Noted(cfg, s, a);
    hide Next;
    assert forall i | 0 <= i < |s.log| :: s'.log[i] == s.log[i];
    assert HasCut(s) ==> HasCut(s') by {
      if HasCut(s) { var i :| 0 <= i < |s.log| && s.log[i].CutEvent?; assert s'.log[i].CutEvent?; }
    }
    assert HasAbort(s) ==> HasAbort(s') by {
      if HasAbort(s) { var i :| 0 <= i < |s.log| && s.log[i].AbortEvent?; assert s'.log[i].AbortEvent?; }
    }
  }

  lemma NoCutsFinal(s: State)
    requires !HasCut(s)
    ensures CutsFinal(s)
  {
  }

  /** Before any cut, every step but the cut itself keeps the invariant. */
  lemma StepBeforeCut(cfg: Config, s: State, a: Action)
    requires InFlight(s, a.t) && !a.Arrive? && !a.CutOff? && !HasCut(s) && Next(cfg, s, a).Some?
    ensures InFlight(Next(cfg, s, a).value, a.t)
  {
    HistoryGrows(cfg, s, a);
    NoCutsFinal(Next(cfg, s, a).value);
    hide HasCut;
    hide HasAbort;
    hide CutsFinal;
  }

  /** After a cut a write can only be refused. */
  lemma StepAfterCut(cfg: Config, s: State, a: Action)
    requires InFlight(s, a.t) && !a.Arrive? && HasCut(s) && Next(cfg, s, a).Some?
    ensures InFlight(Next(cfg, s, a).value, a.t)
  {
    var s' := Next(cfg, s, a).value;
    HistoryGrows(cfg, s, a);
    var i :| 0 <= i < |s.log| && s.log[i].CutEvent?;
    assert s.shared.poisoned;
    assert s.threads[a.t].Arrived? || s.threads[a.t].Failing?;
    assert s'.log == s.log || s'.log == s.log + [Poison];
    assert s'.shared == s.shared || s'.shared == BlockShared(s.shared);
    assert CutsFinal(s');
  }

  lemma CutStep(cfg: Config, s: State, t: nat)
    requires InFlight(s, t) && Next(cfg, s, CutOff(t)).Some?
    ensures InFlight(Next(cfg, s, CutOff(t)).value, t)
  {
    HistoryGrows(cfg, s, CutOff(t));
    var s' := Next(cfg, s, CutOff(t)).value;
    assert s'.log == s.log + [CutEvent(s.threads[t].row, s.threads[t].resp)];
    assert !HasCut(s);
    assert forall i | 0 <= i < |s'.log| && s'.log[i].CutEvent? :: i == |s.log|;
  }

  lemma ArriveStep(cfg: Config, s: State, a: Action)
    requires SerialInv(s) && a.Arrive? && Idle(s) && Next(cfg, s, a).Some?
    ensures InFlight(Next(cfg, s, a).value, a.t)
  {
    var s' := Next(cfg, s, a).value;
    assert s'.log == s.log && s'.shared == s.shared;
    assert HasCut(s') == HasCut(s) && HasAbort(s') == HasAbort(s);
    assert CutsFinal(s') by {
      if s.threads != map[] { var t :| InFlight(s, t); }
    }
    if s.threads != map[] {
      var t :| InFlight(s, t);
      assert s.threads[t].Done?;
    }
  }

  lemma SerialNext(cfg: Config, s: State, a: Action)
    requires SerialInv(s) && Next(cfg, s, a).Some? && (a.Arrive? ==> Idle(s))
    ensures SerialInv(Next(cfg, s, a).value)
  {
    if a.Arrive? {
      ArriveStep(cfg, s, a);
    } else {
      var t :| InFlight(s, t);
      assert a.t == t;
      hide Next;
      hide InFlight;
      if a.CutOff? { CutStep(cfg, s, t); }
      else if HasCut(s) { StepAfterCut(cfg, s, a); }
      else { StepBeforeCut(cfg, s, a); }
    }
  }

  lemma {:induction false} SerialRun(cfg: Config, s: State, actions: seq<Action>)
    requires SerialInv(s) && Serial(cfg, s, actions)
    ensures Run(cfg, s, actions).Some? && SerialInv(Run(cfg, s, actions).value)
    decreases |actions|
  {
    hide SerialInv;
    if actions == [] {
    } else {
      SerialNext(cfg, s, actions[0]);
      SerialRun(cfg, Next(cfg, s, actions[0]).value, actions[1..]);
    }
  }

  /** With one write in flight at a time, over any run: a cut connection leaves the
      proxy poisoned and withholding for good, with nothing but refusals after it;
      the fault is attributed to the write whose response was withheld, and its
      task receipt, if it had one, is in the receipt file. An injection aborted
      because the receipt could not be kept is never followed or preceded by a cut. */
  lemma WithheldIsFinal(cfg: Config, mode: Mode, actions: seq<Action>)
    requires Serial(cfg, Init(mode), actions)
    ensures Run(cfg, Init(mode), actions).Some?
    ensures var s := Run(cfg, Init(mode), actions).value;
      CutsFinal(s) && (HasAbort(s) ==> s.shared.mode == Observe && !HasCut(s))
  {
    SerialRun(cfg, Init(mode), actions);
    var s := Run(cfg, Init(mode), actions).value;
    if !exists t :: InFlight(s, t) { assert s.log == []; }
  }

  /** The receipt is durable before the connection is cut. */
  lemma RetainedBeforeCut(cfg: Config, mode: Mode, actions: seq<Action>, t: nat)
    requires Serial(cfg, Init(mode), actions + [CutOff(t)])
    ensures Serial(cfg, Init(mode), actions) && Run(cfg, Init(mode), actions).Some?
    ensures var s := Run(cfg, Init(mode), actions).value;
      t in s.threads && s.threads[t].Cutting? && ReceiptDurable(s, s.threads[t].row, s.threads[t].resp)
  {
    SerialPrefix(cfg, Init(mode), actions, CutOff(t));
    SerialRun(cfg, Init(mode), actions);
    var s := Run(cfg, Init(mode), actions).value;
    var u :| InFlight(s, u);
  }

  lemma {:induction false} SerialPrefix(cfg: Config, s: State, actions: seq<Action>, a: Action)
    requires Serial(cfg, s, actions + [a])
    ensures Serial(cfg, s, actions) && Run(cfg, s, actions).Some?
    ensures Next(cfg, Run(cfg, s, actions).value, a).Some?
    decreases |actions|
  {
    var all := actions + [a];
    if actions == [] {
      assert all[0] == a;
    } else {
      assert all[0] == actions[0] && all[1..] == actions[1..] + [a];
      SerialPrefix(cfg, Next(cfg, s, actions[0]).value, actions[1..], a);
    }
  }

  // ------------------------------------------------ two writes in flight

  function TwoWrites(): Config { Config({"root"}, (j: Journal, step: Step, req: Request) => step.id == req.path) }

  function PlanFor(id: string): Journal { Journal("allocation", 1, [Step(id, "root", 0, "planned")]) }

  function WriteTo(path: string): Request { Request("POST", path, map[], true) }

  function RowFor(id: string): Row { Row("allocation", id, "root") }

  lemma PlanMatches(id: string)
    ensures PlannedMutation(TwoWrites(), PlanFor(id), WriteTo(id)) == Some(Step(id, "root", 0, "planned"))
  {
    var j, req := PlanFor(id), WriteTo(id);
    assert PlannedMatches(TwoWrites(), j, j.steps[1..], req) == [];
  }

  /** One more step of a run. */
  lemma Extend(cfg: Config, s0: State, actions: seq<Action>, s: State, a: Action) returns (longer: seq<Action>, s': State)
    requires Run(cfg, s0, actions) == Some(s) && Next(cfg, s, a).Some?
    ensures Run(cfg, s0, longer) == Some(s') && s' == Next(cfg, s, a).value
  {
    RunSnoc(cfg, s0, actions, a);
    longer, s' := actions + [a], Next(cfg, s, a).value;
  }

  lemma BothAdmitted() returns (actions: seq<Action>, s: State)
    ensures Run(TwoWrites(), Init(ResponseLoss), actions) == Some(s)
    ensures s.shared == Init(ResponseLoss).shared.(mutations := [RowFor("a"), RowFor("b")])
    ensures s.threads == map[1 := Admitted(0), 2 := Admitted(1)]
  {
    var cfg, s0 := TwoWrites(), Init(ResponseLoss);
    PlanMatches("a");
    PlanMatches("b");
    assert Run(cfg, s0, []) == Some(s0);
    hide PlannedMutation;
    hide Run;
    actions, s := Extend(cfg, s0, [], s0, Arrive(1, WriteTo("a")));
    actions, s := Extend(cfg, s0, actions, s, Arrive(2, WriteTo("b")));
    actions, s := Extend(cfg, s0, actions, s, Admit(1, Some(PlanFor("a"))));
    assert s.shared.mutations == [RowFor("a")];
    actions, s := Extend(cfg, s0, actions, s, Admit(2, Some(PlanFor("b"))));
  }

  /** Both writes are past the mode check before either is withheld. */
  lemma BothPastTheCheck() returns (actions: seq<Action>, s: State)
    ensures Run(TwoWrites(), Init(ResponseLoss), actions) == Some(s)
    ensures s.shared == Init(ResponseLoss).shared.(mutations := [RowFor("a"), RowFor("b")])
    ensures s.threads == map[1 := Faulting(0, Response(200, Upid("UPID:1"))), 2 := Faulting(1, Response(200, Upid("UPID:2")))]
  {
    var cfg, s0 := TwoWrites(), Init(ResponseLoss);
    actions, s := BothAdmitted();
    hide Run;
    actions, s := Extend(cfg, s0, actions, s, Send(1));
    actions, s := Extend(cfg, s0, actions, s, Answer(1, Response(200, Upid("UPID:1"))));
    actions, s := Extend(cfg, s0, actions, s, Check(1));
    assert s.threads == map[1 := Faulting(0, Response(200, Upid("UPID:1"))), 2 := Admitted(1)];
    actions, s := Extend(cfg, s0, actions, s, Send(2));
    actions, s := Extend(cfg, s0, actions, s, Answer(2, Response(200, Upid("UPID:2"))));
    actions, s := Extend(cfg, s0, actions, s, Check(2));
  }

  /** Without the one-write condition the fault can be pinned on the wrong write,
      and a withheld response need not leave the proxy poisoned. */
  lemma OverlapBreaks() returns (actions: seq<Action>)
    ensures Run(TwoWrites(), Init(ResponseLoss), actions).Some?
    ensures var s := Run(TwoWrites(), Init(ResponseLoss), actions).value;
      && CutEvent(0, Response(200, Upid("UPID:1"))) in s.log
      && s.shared.mutations == [RowFor("a"), RowFor("b")] && s.shared.faultStep == Some(RowFor("b"))
      && !s.shared.poisoned && !s.shared.withheld
  {
    var cfg, s0 := TwoWrites(), Init(ResponseLoss);
    var s: State;
    actions, s := BothPastTheCheck();
    hide Run;
    var cut := CutEvent(0, Response(200, Upid("UPID:1")));
    actions, s := Extend(cfg, s0, actions, s, Record(1));
    actions, s := Extend(cfg, s0, actions, s, Retain(1, true, false));
    actions, s := Extend(cfg, s0, actions, s, CutOff(1));
    assert s.log[|s.log| - 1] == cut && s.shared.receiptFile.Retained?;
    actions, s := Extend(cfg, s0, actions, s, Record(2));
    actions, s := Extend(cfg, s0, actions, s, Retain(2, true, false));
    actions, s := Extend(cfg, s0, actions, s, AbortStep(2));
    actions, s := Extend(cfg, s0, actions, s, AbortStep(2));
    assert s.log[|s.log| - 3] == cut;
  }
}
