/** The proxy object itself. Its fields are the shared state of a run of
    `JournalProxy`: every section of `forward` takes the step it stands for, so what
    is proved of every run holds of the object at every moment. */
module JournalVMFaultProxy {
  import opened Text
  import opened JournalProxy

  class Proxy {
    const cfg: Config
    const startMode: Mode
    var poisoned: bool
    var vmMode: Mode
    var mutations: seq<Row>
    var responseWithheld: bool
    var faultStep: Option<Row>
    var recoveredTaskEvidence: Option<Receipt>
    var receiptFile: ReceiptFile
    var injectionAborted: bool
    var blockedMutations: nat
    ghost var history: seq<Action>     // the steps taken so far
    ghost var state: State             // where they lead

    constructor (cfg: Config, mode: Mode)
      ensures Valid() && this.cfg == cfg && startMode == mode && state == Init(mode)
    {
      this.cfg, startMode := cfg, mode;
      poisoned, vmMode, mutations, responseWithheld := false, mode, [], false;
      faultStep, recoveredTaskEvidence, receiptFile := None, None, NoFile;
      injectionAborted, blockedMutations := false, 0;
      history, state := [], Init(mode);
    }

    function View(): Shared
      reads this
    {
      Shared(poisoned, vmMode, mutations, responseWithheld, faultStep, recoveredTaskEvidence, receiptFile,
             injectionAborted, blockedMutations)
    }

    /** The object is where some run of handlers has led. */
    ghost predicate Valid()
      reads this
    {
      Run(cfg, Init(startMode), history) == Some(state) && View() == state.shared
    }

    /** Whatever holds of every run holds of the object: no step was forwarded twice
        and no write was admitted while the proxy was poisoned. */
    lemma AlwaysSafe()
      requires Valid()
      ensures Safe(state)
    {
      RunSafe(cfg, Init(startMode), history);
    }

    /** Handler t is at this point. */
    ghost predicate IsAt(t: nat, pc: Pc)
      reads this
    {
      t in state.threads && state.threads[t] == pc
    }

    ghost method Take(a: Action)
      requires Run(cfg, Init(startMode), history) == Some(state) && Next(cfg, state, a).Some?
      modifies `history, `state
      ensures Run(cfg, Init(startMode), history) == Some(state)
      ensures history == old(history) + [a] && Some(state) == Next(cfg, old(state), a)
    {
      hide Run;
      hide Next;
      RunSnoc(cfg, Init(startMode), history, a);
      history, state := history + [a], Next(cfg, state, a).value;
    }

    /** The first lock section. A write is admitted exactly when the record plans it, as
        one step and no other, and the proxy has not seen that step before; its row is
        that step's. */
    method AdmitWrite(t: nat, req: Request, journal: Option<Journal>) returns (row: Option<nat>)
      requires Valid() && IsAt(t, Arrived(req))
      modifies `mutations, `history, `state
      ensures Valid() && Some(state) == Next(cfg, old(state), Admit(t, journal))
      ensures row.Some? ==>
        && !poisoned && row.value == |old(mutations)| && IsAt(t, Admitted(row.value))
        && old(mutations) < mutations && |mutations| == row.value + 1
        && state.log == old(state).log + [AdmitEvent(row.value)]
        && forall k | 0 <= k < row.value :: mutations[k].step != mutations[row.value].step
      ensures row.None? ==> mutations == old(mutations) && IsAt(t, Failing) && state.log == old(state).log
      ensures row.Some? <==> Admissible(cfg, old(View()), journal, req)
      ensures row.Some? ==> forall k | 0 <= k < |journal.value.steps| && AdmissibleAs(cfg, old(View()), journal, req, k) ::
        mutations == old(mutations) + [Row(journal.value.id, journal.value.steps[k].id, journal.value.steps[k].kind)]
    {
      hide Run;
      hide PlannedMutation;
      hide Admissible;
      hide AdmissibleAs;
      ghost var before := View();
      AdmitIff(cfg, before, journal, req);
      row := Search(journal, req);
      if row.Some? {
        var step := PlannedMutation(cfg, journal.value, req).value;
        mutations := mutations + [Row(journal.value.id, step.id, step.kind)];
        assert AdmitShared(cfg, before, journal, req) == Some(View());
      }
      hide AdmitShared;
      Take(Admit(t, journal));
    }

    /** The planned write, and the loop over the writes recorded before it. */
    method Search(journal: Option<Journal>, req: Request) returns (row: Option<nat>)
      ensures row.Some? <==> AdmitShared(cfg, View(), journal, req).Some?
      ensures row.Some? <==> Admissible(cfg, View(), journal, req)
      ensures row.Some? ==> !poisoned && row.value == |mutations| && journal.Some?
      ensures row.Some? ==>
        && PlannedMutation(cfg, journal.value, req).Some?
        && forall k | 0 <= k < |mutations| :: mutations[k].step != PlannedMutation(cfg, journal.value, req).value.id
    {
      hide PlannedMutation;
      hide Admissible;
      hide AdmissibleAs;
      AdmitIff(cfg, View(), journal, req);
      if poisoned || !req.parses || journal.None? {
        return None;
      }
      var step := PlannedMutation(cfg, journal.value, req);
      if step.None? {
        return None;
      }
      var i := 0;
      while i < |mutations|
        invariant 0 <= i <= |mutations|
        invariant forall k | 0 <= k < i :: mutations[k].step != step.value.id
      {
        if mutations[i].step == step.value.id {
          return None;
        }
        i := i + 1;
      }
      return Some(|mutations|);
    }

    /** The test after the answer, outside the lock. */
    method CheckInjection(t: nat, row: nat, resp: Response) returns (inject: bool)
      requires Valid() && IsAt(t, Answered(row, resp))
      modifies `history, `state
      ensures Valid() && Some(state) == Next(cfg, old(state), Check(t))
      ensures IsAt(t, if inject then Faulting(row, resp) else Passing(row, resp))
      ensures row < |mutations| && state.log == old(state).log
      ensures inject <==> Faults(cfg, vmMode, mutations[row].kind, resp.status)
    {
      RowKnown(t);
      hide Run;
      inject := vmMode != Observe && mutations[row].kind in cfg.phaseKinds && 200 <= resp.status < 300;
      Take(Check(t));
    }

    /** A handler past its admission holds a row of the list. */
    lemma RowKnown(t: nat)
      requires Valid() && t in state.threads && RowOf(state.threads[t]).Some?
      ensures RowOf(state.threads[t]).value < |mutations|
    {
      AlwaysSafe();
      hide Run;
      hide PoisonSafe;
    }

    /** The second lock section, after a response that is to be withheld: the proxy is
        poisoned, and the fault is this write's if and only if no write was admitted
        after it. */
    method RecordFault(t: nat, row: nat, resp: Response)
      requires Valid() && IsAt(t, Faulting(row, resp))
      modifies this
      ensures Valid() && Some(state) == Next(cfg, old(state), Record(t))
      ensures poisoned && responseWithheld && mutations == old(mutations) && row < |mutations|
      ensures faultStep == Some(mutations[row]) <==> row + 1 == |mutations|
      ensures resp.payload.Upid? ==>
        recoveredTaskEvidence == Some(Receipt(mutations[row].allocation, mutations[row].step, resp.payload.upid))
      ensures !resp.payload.Upid? ==> recoveredTaskEvidence == old(recoveredTaskEvidence)
      ensures state.log == old(state).log + [Poison]
      ensures vmMode == old(vmMode) && receiptFile == old(receiptFile)
      ensures IsAt(t, AfterRecord(row, resp))
    {
      hide Run;
      hide Safe;
      hide Next;
      hide AfterRecord;
      RowKnown(t);
      AlwaysSafe();
      LastRowIff(state, row);
      RecordStep(cfg, state, t, row, resp);
      poisoned := true;
      responseWithheld := true;
      faultStep := Some(mutations[|mutations| - 1]);
      if resp.payload.Upid? {
        recoveredTaskEvidence := Some(Receipt(mutations[row].allocation, mutations[row].step, resp.payload.upid));
      }
      Take(Record(t));
    }

    /** retain_response, outside the lock, when there is a receipt. `diskOk` is whether
        every file operation and the size bound would let it through. The connection
        is cut only with the receipt in its file, and a receipt once in its file is
        never replaced. */
    method RetainResponse(t: nat, row: nat, resp: Response, diskOk: bool, leavesFile: bool) returns (kept: bool)
      requires Valid() && IsAt(t, Recorded(row, resp))
      modifies `receiptFile, `history, `state
      ensures Valid() && Some(state) == Next(cfg, old(state), Retain(t, diskOk, leavesFile))
      ensures kept <==> recoveredTaskEvidence.None? || (old(receiptFile).NoFile? && diskOk)
      ensures state.log == old(state).log
      ensures kept && recoveredTaskEvidence.Some? ==> receiptFile == Retained(recoveredTaskEvidence.value)
      ensures old(receiptFile).Retained? ==> receiptFile == old(receiptFile)
      ensures IsAt(t, if kept then Cutting(row, resp) else Aborting(row, resp, 0))
    {
      hide Run;
      kept := true;
      if recoveredTaskEvidence.Some? {
        if !receiptFile.NoFile? {
          kept := false;
        } else if !diskOk {
          if leavesFile {
            receiptFile := PartialFile;
          }
          kept := false;
        } else {
          receiptFile := Retained(recoveredTaskEvidence.value);
        }
      }
      Take(Retain(t, diskOk, leavesFile));
    }

    /** The retention-failure path: nothing is withheld any more, and no response of
        any write is ever withheld from here on. */
    method AbortInjection(t: nat, row: nat, resp: Response)
      requires Valid() && IsAt(t, Aborting(row, resp, 0))
      modifies this
      ensures Valid() && Run(cfg, old(state), [AbortStep(t), AbortStep(t), AbortStep(t)]) == Some(state)
      ensures forall r, answer :: !Injects(cfg, View(), r, answer)
      ensures injectionAborted && !responseWithheld && !poisoned && vmMode == Observe && mutations == old(mutations)
      ensures IsAt(t, Passing(row, resp)) && state.log == old(state).log + [Unpoison, AbortEvent(row)]
    {
      hide Run;
      hide Next;
      ghost var s0 := state;
      NoteAbort(t, row, resp);
      ghost var s1 := state;
      LiftPoison(t, row, resp);
      ghost var s2 := state;
      StopInjecting(t, row, resp);
      ThreeSteps(cfg, s0, s1, s2, state, AbortStep(t));
    }

    method NoteAbort(t: nat, row: nat, resp: Response)
      requires Valid() && IsAt(t, Aborting(row, resp, 0))
      modifies `injectionAborted, `responseWithheld, `history, `state
      ensures Valid() && Some(state) == Next(cfg, old(state), AbortStep(t)) && state.log == old(state).log
      ensures injectionAborted && !responseWithheld && IsAt(t, Aborting(row, resp, 1))
    {
      hide Run;
      hide Next;
      injectionAborted := true;
      responseWithheld := false;
      AbortSteps(cfg, state, t, row, resp, 0);
      Take(AbortStep(t));
    }

    method LiftPoison(t: nat, row: nat, resp: Response)
      requires Valid() && IsAt(t, Aborting(row, resp, 1))
      modifies `poisoned, `history, `state
      ensures Valid() && Some(state) == Next(cfg, old(state), AbortStep(t)) && state.log == old(state).log + [Unpoison]
      ensures !poisoned && IsAt(t, Aborting(row, resp, 2))
    {
      hide Run;
      hide Next;
      poisoned := false;
      AbortSteps(cfg, state, t, row, resp, 1);
      Take(AbortStep(t));
    }

    method StopInjecting(t: nat, row: nat, resp: Response)
      requires Valid() && IsAt(t, Aborting(row, resp, 2))
      modifies `vmMode, `history, `state
      ensures Valid() && Some(state) == Next(cfg, old(state), AbortStep(t)) && state.log == old(state).log + [AbortEvent(row)]
      ensures vmMode == Observe && IsAt(t, Passing(row, resp))
    {
      hide Run;
      hide Next;
      vmMode := Observe;
      AbortSteps(cfg, state, t, row, resp, 2);
      Take(AbortStep(t));
    }

    /** The exception handler's lock section: no write is admitted after it while the
        poison lasts. */
    method BlockWrite(t: nat)
      requires Valid() && IsAt(t, Failing)
      modifies this
      ensures Valid() && Some(state) == Next(cfg, old(state), Block(t))
      ensures forall journal, req :: AdmitShared(cfg, View(), journal, req).None?
      ensures mutations == old(mutations) && poisoned && IsAt(t, Done(Refused))
      ensures vmMode == old(vmMode) && state.log == old(state).log + [Poison]
      ensures blockedMutations == old(blockedMutations) + 1
    {
      hide Run;
      hide Next;
      poisoned := true;
      blockedMutations := blockedMutations + 1;
      BlockStep(cfg, state, t);
      Take(Block(t));
    }

    /** forward, for one write whose handler no other one interrupts. `upstream` is
        None when the call to PVE raised. A write is sent if and only if it may be
        admitted; how it ends is decided by the answer's status and body, the mode, the
        step's kind and whether the receipt could be kept. */
    method Forward(t: nat, req: Request, journal: Option<Journal>, upstream: Option<Response>, diskOk: bool, leavesFile: bool)
      returns (outcome: Outcome)
      requires Valid() && t !in state.threads
      modifies this
      ensures Valid() && Safe(state) && IsAt(t, Done(outcome))
      ensures old(poisoned) ==> outcome == Refused && poisoned && mutations == old(mutations)
      ensures old(mutations) <= mutations && |mutations| <= |old(mutations)| + 1
      ensures outcome.Delivered? ==> upstream == Some(outcome.resp)
      ensures !Admissible(cfg, old(View()), journal, req) ==>
        outcome == Refused && poisoned && mutations == old(mutations) && state.log == old(state).log + [Poison]
      ensures Admissible(cfg, old(View()), journal, req) ==>
        && !old(poisoned) && old(state).log + [AdmitEvent(|old(mutations)|), ForwardEvent(|old(mutations)|)] <= state.log
        && forall k | 0 <= k < |journal.value.steps| && AdmissibleAs(cfg, old(View()), journal, req, k) ::
             mutations == old(mutations) + [Row(journal.value.id, journal.value.steps[k].id, journal.value.steps[k].kind)]
      ensures Admissible(cfg, old(View()), journal, req) && upstream.None? ==> outcome == Refused
      ensures Admissible(cfg, old(View()), journal, req) && upstream.Some? ==>
        && |mutations| == |old(mutations)| + 1
        && var resp := upstream.value;
        if old(vmMode) == Observe || mutations[|old(mutations)|].kind !in cfg.phaseKinds || resp.status < 200 || resp.status > 299
        then outcome == Delivered(resp) && !poisoned && vmMode == old(vmMode) && receiptFile == old(receiptFile)
        else match resp.payload
          case Malformed => outcome == Refused
          case NotAnObject => outcome == Died
          case OtherData =>
            outcome == if old(recoveredTaskEvidence).None? || (old(receiptFile).NoFile? && diskOk) then Cut else Delivered(resp)
          case Upid(_) => outcome == if old(receiptFile).NoFile? && diskOk then Cut else Delivered(resp)
      ensures outcome.Delivered? ==> state.log[|state.log| - 1..] == [DeliverEvent(|old(mutations)|, outcome.resp)]
      ensures outcome.Refused? || outcome.Died? ==> poisoned
      ensures outcome.Cut? ==> CutFor(upstream)
      ensures vmMode != old(vmMode) ==> vmMode == Observe && outcome.Delivered? && !poisoned
    {
      hide Run;
      hide Next;
      hide Safe;
      hide Admissible;
      hide AdmissibleAs;
      ArriveStep(cfg, state, t, req);
      Take(Arrive(t, req));
      var row := AdmitWrite(t, req, journal);
      if row.None? {
        BlockWrite(t);
        AlwaysSafe();
        return Refused;
      }
      outcome := AfterAdmission(t, row.value, upstream, diskOk, leavesFile);
      AlwaysSafe();
    }

    /** What a cut connection leaves: the proxy poisoned over the last write, with the
        receipt PVE gave for it in its file. */
    ghost predicate CutFor(upstream: Option<Response>)
      reads this
    {
      && upstream.Some? && poisoned && responseWithheld && mutations != []
      && var last := mutations[|mutations| - 1];
      && faultStep == Some(last)
      && (upstream.value.payload.Upid? ==>
            receiptFile == Retained(Receipt(last.allocation, last.step, upstream.value.payload.upid)))
    }

    /** The part of forward that follows the admission. */
    method AfterAdmission(t: nat, row: nat, upstream: Option<Response>, diskOk: bool, leavesFile: bool) returns (outcome: Outcome)
      requires Valid() && IsAt(t, Admitted(row)) && row + 1 == |mutations| && !poisoned
      modifies this
      ensures Valid() && IsAt(t, Done(outcome)) && mutations == old(mutations)
      ensures old(state).log + [ForwardEvent(row)] <= state.log
      ensures outcome.Delivered? ==> upstream == Some(outcome.resp)
      ensures upstream.None? ==> outcome == Refused
      ensures upstream.Some? && !Faults(cfg, old(vmMode), mutations[row].kind, upstream.value.status) ==>
        outcome == Delivered(upstream.value) && !poisoned && vmMode == old(vmMode) && receiptFile == old(receiptFile)
      ensures upstream.Some? && Faults(cfg, old(vmMode), mutations[row].kind, upstream.value.status) ==>
        outcome == Withheld(upstream.value, old(recoveredTaskEvidence).Some?, old(receiptFile).NoFile? && diskOk)
      ensures outcome.Delivered? ==> state.log[|state.log| - 1..] == [DeliverEvent(row, outcome.resp)]
      ensures outcome.Refused? || outcome.Died? ==> poisoned
      ensures outcome.Cut? ==> CutFor(upstream)
      ensures vmMode != old(vmMode) ==> vmMode == Observe && outcome.Delivered? && !poisoned
    {
      hide Run;
      hide Next;
      hide Faults;
      hide Withheld;
      hide CutFor;
      var answered := CallUpstream(t, row, upstream);
      if !answered {
        BlockWrite(t);
        return Refused;
      }
      var inject := CheckInjection(t, row, upstream.value);
      if inject {
        var ended := Withhold(t, row, upstream.value, diskOk, leavesFile);
        if ended.Some? {
          return ended.value;
        }
      }
      DeliverTo(t, row, upstream.value);
      return Delivered(upstream.value);
    }

    /** The call to PVE, outside the lock. */
    method CallUpstream(t: nat, row: nat, upstream: Option<Response>) returns (answered: bool)
      requires Valid() && IsAt(t, Admitted(row))
      modifies `history, `state
      ensures Valid() && answered == upstream.Some?
      ensures IsAt(t, if answered then Answered(row, upstream.value) else Failing)
      ensures state.log == old(state).log + [ForwardEvent(row)] + (if answered then [AnswerEvent(row, upstream.value)] else [])
    {
      hide Run;
      Take(Send(t));
      answered := upstream.Some?;
      if answered {
        Take(Answer(t, upstream.value));
      } else {
        Take(Raise(t));
      }
    }

    ghost method DeliverTo(t: nat, row: nat, resp: Response)
      requires Valid() && IsAt(t, Passing(row, resp))
      modifies `history, `state
      ensures Valid() && IsAt(t, Done(Delivered(resp))) && state.log == old(state).log + [DeliverEvent(row, resp)]
    {
      hide Run;
      Take(Deliver(t));
    }

    /** A response that is to be withheld: how the handler ended, or None when the
        injection was aborted and the response goes out after all. */
    method Withhold(t: nat, row: nat, resp: Response, diskOk: bool, leavesFile: bool) returns (ended: Option<Outcome>)
      requires Valid() && IsAt(t, Faulting(row, resp)) && row + 1 == |mutations|
      modifies this
      ensures Valid() && mutations == old(mutations) && old(state).log <= state.log
      ensures (match ended case Some(o) => o case None => Delivered(resp))
           == Withheld(resp, old(recoveredTaskEvidence).Some?, old(receiptFile).NoFile? && diskOk)
      ensures ended.Some? ==> IsAt(t, Done(ended.value)) && !ended.value.Delivered? && poisoned && vmMode == old(vmMode)
      ensures ended == Some(Cut) ==> CutFor(Some(resp))
      ensures ended.None? ==> IsAt(t, Passing(row, resp)) && !poisoned && vmMode == Observe
    {
      hide Run;
      hide Next;
      RecordFault(t, row, resp);
      if resp.payload.Malformed? {
        BlockWrite(t);
        return Some(Refused);
      }
      if resp.payload.NotAnObject? {
        return Some(Died);
      }
      var cut := CutOrAbort(t, row, resp, diskOk, leavesFile);
      return if cut then Some(Cut) else None;
    }

    /** With the receipt kept the connection is cut; without it the injection is given up. */
    method CutOrAbort(t: nat, row: nat, resp: Response, diskOk: bool, leavesFile: bool) returns (cut: bool)
      requires Valid() && IsAt(t, Recorded(row, resp)) && poisoned
      modifies this
      ensures Valid() && mutations == old(mutations) && old(state).log <= state.log
      ensures cut <==> old(recoveredTaskEvidence).None? || (old(receiptFile).NoFile? && diskOk)
      ensures cut ==> IsAt(t, Done(Cut)) && View() == old(View()).(receiptFile := receiptFile)
      ensures cut && old(recoveredTaskEvidence).Some? ==> receiptFile == Retained(old(recoveredTaskEvidence).value)
      ensures !cut ==> IsAt(t, Passing(row, resp)) && !poisoned && vmMode == Observe
    {
      hide Run;
      hide Next;
      cut := RetainResponse(t, row, resp, diskOk, leavesFile);
      if cut {
        CutConnection(t, row, resp);
      } else {
        AbortInjection(t, row, resp);
      }
    }

    ghost method CutConnection(t: nat, row: nat, resp: Response)
      requires Valid() && IsAt(t, Cutting(row, resp))
      modifies `history, `state
      ensures Valid() && IsAt(t, Done(Cut)) && state.log == old(state).log + [CutEvent(row, resp)]
    {
      hide Run;
      Take(CutOff(t));
    }
  }

  /** An answer that is to be withheld. */
  predicate Faults(cfg: Config, mode: Mode, kind: string, status: nat) {
    mode != Observe && kind in cfg.phaseKinds && 200 <= status < 300
  }

  /** How withholding an answer ends: `noted` is whether a receipt was noted before,
      `keeps` whether the receipt file can be written. */
  function Withheld(resp: Response, noted: bool, keeps: bool): Outcome {
    match resp.payload
    case Malformed => Refused
    case NotAnObject => Died
    case OtherData => if noted && !keeps then Delivered(resp) else Cut
    case Upid(_) => if keeps then Cut else Delivered(resp)
  }

  // ------------------------------------------------- what single steps do

  function At(s: State, shared: Shared, t: nat, pc: Pc, log: seq<Event>): State {
    State(shared, s.threads[t := pc], log)
  }

  function AfterRecord(row: nat, resp: Response): Pc {
    match resp.payload
    case Malformed => Failing
    case NotAnObject => Done(Died)
    case _ => Recorded(row, resp)
  }

  lemma RecordStep(cfg: Config, s: State, t: nat, row: nat, resp: Response)
    requires t in s.threads && s.threads[t] == Faulting(row, resp) && row < |s.shared.mutations|
    ensures Next(cfg, s, Record(t))
         == Some(At(s, FaultShared(s.shared, s.shared.mutations[row], resp), t, AfterRecord(row, resp), s.log + [Poison]))
  {
  }

  lemma AbortSteps(cfg: Config, s: State, t: nat, row: nat, resp: Response, stage: nat)
    requires t in s.threads && s.threads[t] == Aborting(row, resp, stage) && stage <= 2
    ensures Next(cfg, s, AbortStep(t)) == Some(
      if stage == 0 then At(s, s.shared.(aborted := true, withheld := false), t, Aborting(row, resp, 1), s.log)
      else if stage == 1 then At(s, s.shared.(poisoned := false), t, Aborting(row, resp, 2), s.log + [Unpoison])
      else At(s, s.shared.(mode := Observe), t, Passing(row, resp), s.log + [AbortEvent(row)]))
  {
  }

  lemma BlockStep(cfg: Config, s: State, t: nat)
    requires t in s.threads && s.threads[t] == Failing
    ensures Next(cfg, s, Block(t)) == Some(At(s, BlockShared(s.shared), t, Done(Refused), s.log + [Poison]))
  {
  }

  lemma ArriveStep(cfg: Config, s: State, t: nat, req: Request)
    requires t !in s.threads
    ensures Next(cfg, s, Arrive(t, req)) == Some(At(s, s.shared, t, Arrived(req), s.log))
  {
  }

  lemma ThreeSteps(cfg: Config, s0: State, s1: State, s2: State, s3: State, a: Action)
    requires Next(cfg, s0, a) == Some(s1) && Next(cfg, s1, a) == Some(s2) && Next(cfg, s2, a) == Some(s3)
    ensures Run(cfg, s0, [a, a, a]) == Some(s3)
  {
    hide Next;
    assert [a, a, a][1..] == [a, a] && [a, a][1..] == [a] && [a][1..] == [];
    assert Run(cfg, s3, []) == Some(s3);
    assert Run(cfg, s2, [a]) == Some(s3);
    assert Run(cfg, s1, [a, a]) == Some(s3);
  }
}
