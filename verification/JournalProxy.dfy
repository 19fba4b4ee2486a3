/** The journal-bound VM fault proxy (scripts/_storage_placement_vm_faults.py).

    Handler threads share the poison flag, the mode and the evidence under one
    lock; the upstream call and the receipt file are outside it. A thread is a
    program counter, every lock section and every unlocked access to the shared
    state is one step, and a run is any interleaving of steps. */
module JournalProxy {
  import opened Text

  datatype Mode = Observe | ResponseLoss | Crash

  datatype Request = Request(verb: string, path: string, fields: map<string, string>, parses: bool)

  datatype Step = Step(id: string, kind: string, attempt: nat, state: string)

  /** The one active record of the scenario's agent. */
  datatype Journal = Journal(id: string, attempts: nat, steps: seq<Step>)

  datatype Row = Row(allocation: string, step: string, kind: string)

  /** The response body: a JSON object whose "data" is a task receipt, another
      JSON object, JSON that is not an object, or not JSON. */
  datatype Payload = Upid(upid: string) | OtherData | NotAnObject | Malformed

  datatype Response = Response(status: nat, payload: Payload)

  datatype Receipt = Receipt(allocation: string, step: string, upid: string)

  datatype ReceiptFile = NoFile | PartialFile | Retained(receipt: Receipt)

  /** How the proxy was set up: the step kinds of the faulted phase and the test
      that a request is the one a planned step stands for. */
  datatype Config = Config(phaseKinds: set<string>, matches: (Journal, Step, Request) -> bool)

  datatype Shared = Shared(
    poisoned: bool,
    mode: Mode,
    mutations: seq<Row>,
    withheld: bool,
    faultStep: Option<Row>,
    receipt: Option<Receipt>,     // evidence["recovered_task_evidence"]
    receiptFile: ReceiptFile,
    aborted: bool,
    blocked: nat)

  // ------------------------------------------------------------ lock sections

  function ActiveAttempt(j: Journal): nat { if j.attempts > 1 then j.attempts - 1 else 0 }

  /** The planned steps of the active attempt that the request matches. */
  function PlannedMatches(cfg: Config, j: Journal, steps: seq<Step>, req: Request): seq<Step> {
    if steps == [] then []
    else
      var rest := PlannedMatches(cfg, j, steps[1..], req);
      if steps[0].attempt == ActiveAttempt(j) && steps[0].state == "planned" && cfg.matches(j, steps[0], req)
      then [steps[0]] + rest else rest
  }

  /** planned_mutation: the one exact planned step, or none. */
  function PlannedMutation(cfg: Config, j: Journal, req: Request): Option<Step> {
    var found := PlannedMatches(cfg, j, j.steps, req);
    if |found| == 1 then Some(found[0]) else None
  }

  /** The admission section. `journal` is what reading the record gave, if it could be read. */
  function AdmitShared(cfg: Config, sh: Shared, journal: Option<Journal>, req: Request): Option<Shared> {
    if sh.poisoned || !req.parses || journal.None? then None
    else
      match PlannedMutation(cfg, journal.value, req)
      case None => None
      case Some(step) =>
        if exists i :: 0 <= i < |sh.mutations| && sh.mutations[i].step == step.id then None
        else Some(sh.(mutations := sh.mutations + [Row(journal.value.id, step.id, step.kind)]))
  }

  // ------------------------------------------------- which write is admitted

  /** Step `k` of the record is of the active attempt, not yet submitted, and the one
      the request stands for. The active attempt is the last one, or 0 before any. */
  predicate StandsFor(cfg: Config, j: Journal, k: nat, req: Request) {
    && k < |j.steps|
    && (j.steps[k].attempt + 1 == j.attempts || (j.attempts == 0 && j.steps[k].attempt == 0))
    && j.steps[k].state == "planned"
    && cfg.matches(j, j.steps[k], req)
  }

  /** Step `k` and no other. */
  predicate OnlyStandsFor(cfg: Config, j: Journal, k: nat, req: Request) {
    StandsFor(cfg, j, k, req) && forall i | 0 <= i < |j.steps| && i != k :: !StandsFor(cfg, j, i, req)
  }

  /** The write may be admitted as step `k`: the proxy is not poisoned, the request can
      be read, the step is the one it stands for, and no row has it yet. */
  predicate AdmissibleAs(cfg: Config, sh: Shared, journal: Option<Journal>, req: Request, k: nat) {
    && !sh.poisoned && req.parses && journal.Some?
    && OnlyStandsFor(cfg, journal.value, k, req)
    && forall i | 0 <= i < |sh.mutations| :: sh.mutations[i].step != journal.value.steps[k].id
  }

  predicate Admissible(cfg: Config, sh: Shared, journal: Option<Journal>, req: Request) {
    journal.Some? && exists k | 0 <= k < |journal.value.steps| :: AdmissibleAs(cfg, sh, journal, req, k)
  }

  lemma {:induction false} MatchesFrom(cfg: Config, j: Journal, n: nat, req: Request)
    requires n <= |j.steps|
    ensures PlannedMatches(cfg, j, j.steps[n..], req) == [] <==> forall i | n <= i < |j.steps| :: !StandsFor(cfg, j, i, req)
    ensures |PlannedMatches(cfg, j, j.steps[n..], req)| == 1 ==>
      exists k | n <= k < |j.steps| :: OnlyFrom(cfg, j, n, k, req) && PlannedMatches(cfg, j, j.steps[n..], req) == [j.steps[k]]
    decreases |j.steps| - n
  {
    if n == |j.steps| {
    } else {
      MatchesFrom(cfg, j, n + 1, req);
      assert j.steps[n..][1..] == j.steps[n + 1..];
      var rest := PlannedMatches(cfg, j, j.steps[n + 1..], req);
      if StandsFor(cfg, j, n, req) {
        if rest == [] { assert OnlyFrom(cfg, j, n, n, req); }
      } else if |rest| == 1 {
        var k :| n + 1 <= k < |j.steps| && OnlyFrom(cfg, j, n + 1, k, req) && rest == [j.steps[k]];
        assert OnlyFrom(cfg, j, n, k, req);
      }
    }
  }

  predicate OnlyFrom(cfg: Config, j: Journal, n: nat, k: nat, req: Request) {
    StandsFor(cfg, j, k, req) && forall i | n <= i < |j.steps| && i != k :: !StandsFor(cfg, j, i, req)
  }

  lemma {:induction false} MatchFound(cfg: Config, j: Journal, n: nat, k: nat, req: Request)
    requires n <= k < |j.steps| && OnlyFrom(cfg, j, n, k, req)
    ensures PlannedMatches(cfg, j, j.steps[n..], req) == [j.steps[k]]
    decreases |j.steps| - n
  {
    assert j.steps[n..][1..] == j.steps[n + 1..];
    if n == k {
      MatchesFrom(cfg, j, n + 1, req);
    } else {
      assert !StandsFor(cfg, j, n, req);
      assert OnlyFrom(cfg, j, n + 1, k, req);
      MatchFound(cfg, j, n + 1, k, req);
    }
  }

  /** planned_mutation finds a step exactly when one step, and only one, is the one the
      request stands for. */
  lemma PlannedIff(cfg: Config, j: Journal, req: Request)
    ensures PlannedMutation(cfg, j, req).Some? ==>
      exists k | 0 <= k < |j.steps| :: OnlyStandsFor(cfg, j, k, req) && PlannedMutation(cfg, j, req) == Some(j.steps[k])
    ensures forall k | 0 <= k < |j.steps| && OnlyStandsFor(cfg, j, k, req) :: PlannedMutation(cfg, j, req) == Some(j.steps[k])
  {
    hide PlannedMatches;
    hide StandsFor;
    assert j.steps[0..] == j.steps;
    MatchesFrom(cfg, j, 0, req);
    if PlannedMutation(cfg, j, req).Some? {
      var k :| 0 <= k < |j.steps| && OnlyFrom(cfg, j, 0, k, req) && PlannedMatches(cfg, j, j.steps[0..], req) == [j.steps[k]];
      assert OnlyStandsFor(cfg, j, k, req);
    }
    forall k | 0 <= k < |j.steps| && OnlyStandsFor(cfg, j, k, req) ensures PlannedMutation(cfg, j, req) == Some(j.steps[k]) {
      assert OnlyFrom(cfg, j, 0, k, req);
      MatchFound(cfg, j, 0, k, req);
    }
  }

  /** A write is admitted exactly when it may be, and its row is that step's. */
  lemma AdmitIff(cfg: Config, sh: Shared, journal: Option<Journal>, req: Request)
    ensures AdmitShared(cfg, sh, journal, req).Some? <==> Admissible(cfg, sh, journal, req)
    ensures journal.Some? ==> forall k | 0 <= k < |journal.value.steps| && AdmissibleAs(cfg, sh, journal, req, k) ::
      var step := journal.value.steps[k];
      AdmitShared(cfg, sh, journal, req) == Some(sh.(mutations := sh.mutations + [Row(journal.value.id, step.id, step.kind)]))
  {
    hide PlannedMutation;
    hide OnlyStandsFor;
    if journal.Some? {
      PlannedIff(cfg, journal.value, req);
      if AdmitShared(cfg, sh, journal, req).Some? {
        var k :| 0 <= k < |journal.value.steps| && OnlyStandsFor(cfg, journal.value, k, req)
                 && PlannedMutation(cfg, journal.value, req) == Some(journal.value.steps[k]);
        assert AdmissibleAs(cfg, sh, journal, req, k);
      }
    }
  }

  predicate Injects(cfg: Config, sh: Shared, row: Row, resp: Response) {
    sh.mode != Observe && row.kind in cfg.phaseKinds && 200 <= resp.status < 300
  }

  /** The fault section: poison, withhold, attribute the fault to the last
      admitted write and note a task receipt. */
  function FaultShared(sh: Shared, row: Row, resp: Response): Shared
    requires sh.mutations != []
  {
    sh.(poisoned := true, withheld := true,
        faultStep := Some(sh.mutations[|sh.mutations| - 1]),
        receipt := if resp.payload.Upid? then Some(Receipt(row.allocation, row.step, resp.payload.upid)) else sh.receipt)
  }

  /** The exception handler's section. */
  function BlockShared(sh: Shared): Shared { sh.(poisoned := true, blocked := sh.blocked + 1) }

  /** retain_response: exclusive creation, so an existing file always fails it. */
  function RetainFile(f: ReceiptFile, receipt: Receipt, diskOk: bool, leavesFile: bool): ReceiptFile {
    if !f.NoFile? then f
    else if diskOk then Retained(receipt)
    else if leavesFile then PartialFile
    else NoFile
  }

  predicate RetainOk(f: ReceiptFile, diskOk: bool) { f.NoFile? && diskOk }

  // ------------------------------------------------------------------ threads

  datatype Outcome =
    | Delivered(resp: Response)   // the client got PVE's own response
    | Cut                         // the connection was cut instead
    | Refused                     // the client got a 503
    | Died                        // an exception the handler does not catch

  /** Where a write's handler is. `row` indexes the mutations list. */
  datatype Pc =
    | Arrived(req: Request)
    | Admitted(row: nat)
    | Sent(row: nat)
    | Answered(row: nat, resp: Response)
    | Faulting(row: nat, resp: Response)
    | Recorded(row: nat, resp: Response)
    | Aborting(row: nat, resp: Response, stage: nat)
    | Passing(row: nat, resp: Response)
    | Cutting(row: nat, resp: Response)
    | Failing
    | Done(outcome: Outcome)

  datatype Event =
    | Poison
    | Unpoison
    | AdmitEvent(row: nat)
    | ForwardEvent(row: nat)
    | AnswerEvent(row: nat, resp: Response)
    | DeliverEvent(row: nat, resp: Response)
    | CutEvent(row: nat, resp: Response)
    | AbortEvent(row: nat)

  datatype State = State(shared: Shared, threads: map<nat, Pc>, log: seq<Event>)

  datatype Action =
    | Arrive(t: nat, req: Request)
    | Admit(t: nat, journal: Option<Journal>)
    | Send(t: nat)
    | Answer(t: nat, resp: Response)
    | Check(t: nat)
    | Record(t: nat)
    | Retain(t: nat, diskOk: bool, leavesFile: bool)
    | AbortStep(t: nat)
    | Deliver(t: nat)
    | CutOff(t: nat)
    | Raise(t: nat)
    | Block(t: nat)

  function Init(mode: Mode): State {
    State(Shared(false, mode, [], false, None, None, NoFile, false, 0), map[], [])
  }

  function Goto(s: State, t: nat, pc: Pc): State { s.(threads := s.threads[t := pc]) }

  function Noting(s: State, e: Event): State { s.(log := s.log + [e]) }

  /** An exception can be raised at any point between the two handlers' ends
      except inside a lock section, which is one step. */
  predicate CanRaise(pc: Pc) {
    pc.Arrived? || pc.Admitted? || pc.Sent? || pc.Answered? || pc.Passing?
  }

  /** One step of thread `a.t`, or None when the thread is not there. */
  function Next(cfg: Config, s: State, a: Action): Option<State> {
    if a.Arrive? then
      if a.t in s.threads then None else Some(Goto(s, a.t, Arrived(a.req)))
    else if a.t !in s.threads then None
    else
      var pc, sh := s.threads[a.t], s.shared;
      match a
      case Admit(t, journal) =>
        if !pc.Arrived? then None
        else
          var admitted := AdmitShared(cfg, sh, journal, pc.req);
          if admitted.None? then Some(Goto(s, t, Failing))
          else
            var row := |sh.mutations|;
            Some(Noting(Goto(s.(shared := admitted.value), t, Admitted(row)), AdmitEvent(row)))
      case Send(t) =>
        if !pc.Admitted? then None else Some(Noting(Goto(s, t, Sent(pc.row)), ForwardEvent(pc.row)))
      case Answer(t, resp) =>
        if !pc.Sent? then None
        else Some(Noting(Goto(s, t, Answered(pc.row, resp)), AnswerEvent(pc.row, resp)))
      case Check(t) =>
        if !pc.Answered? || pc.row >= |sh.mutations| then None
        else if Injects(cfg, sh, sh.mutations[pc.row], pc.resp) then Some(Goto(s, t, Faulting(pc.row, pc.resp)))
        else Some(Goto(s, t, Passing(pc.row, pc.resp)))
      case Record(t) =>
        if !pc.Faulting? || pc.row >= |sh.mutations| then None
        else
          var after := s.(shared := FaultShared(sh, sh.mutations[pc.row], pc.resp));
          var target := if pc.resp.payload.Malformed? then Failing
                        else if pc.resp.payload.NotAnObject? then Done(Died)
                        else Recorded(pc.row, pc.resp);
          Some(Noting(Goto(after, t, target), Poison))
      case Retain(t, diskOk, leavesFile) =>
        if !pc.Recorded? then None
        else if sh.receipt.None? then Some(Goto(s, t, Cutting(pc.row, pc.resp)))
        else
          var after := s.(shared := sh.(receiptFile := RetainFile(sh.receiptFile, sh.receipt.value, diskOk, leavesFile)));
          if RetainOk(sh.receiptFile, diskOk) then Some(Goto(after, t, Cutting(pc.row, pc.resp)))
          else Some(Goto(after, t, Aborting(pc.row, pc.resp, 0)))
      case AbortStep(t) =>
        if !pc.Aborting? then None
        else if pc.stage == 0 then
          Some(Goto(s.(shared := sh.(aborted := true, withheld := false)), t, Aborting(pc.row, pc.resp, 1)))
        else if pc.stage == 1 then
          Some(Noting(Goto(s.(shared := sh.(poisoned := false)), t, Aborting(pc.row, pc.resp, 2)), Unpoison))
        else
          Some(Noting(Goto(s.(shared := sh.(mode := Observe)), t, Passing(pc.row, pc.resp)), AbortEvent(pc.row)))
      case Deliver(t) =>
        if !pc.Passing? then None
        else Some(Noting(Goto(s, t, Done(Delivered(pc.resp))), DeliverEvent(pc.row, pc.resp)))
      case CutOff(t) =>
        if !pc.Cutting? then None else Some(Noting(Goto(s, t, Done(Cut)), CutEvent(pc.row, pc.resp)))
      case Raise(t) =>
        if !CanRaise(pc) then None else Some(Goto(s, t, Failing))
      case Block(t) =>
        if !pc.Failing? then None
        else Some(Noting(Goto(s.(shared := BlockShared(sh)), t, Done(Refused)), Poison))
  }

  /** The state after a sequence of steps, if each of them can be taken. */
  function Run(cfg: Config, s: State, actions: seq<Action>): Option<State>
    decreases |actions|
  {
    if actions == [] then Some(s)
    else
      match Next(cfg, s, actions[0])
      case None => None
      case Some(s') => Run(cfg, s', actions[1..])
  }

  /** A run and one more step. */
  lemma {:induction false} RunSnoc(cfg: Config, s: State, actions: seq<Action>, a: Action)
    requires Run(cfg, s, actions).Some?
    ensures Run(cfg, s, actions + [a]) == Next(cfg, Run(cfg, s, actions).value, a)
    decreases |actions|
  {
    var all := actions + [a];
    if actions == [] {
      assert all[0] == a && all[1..] == [];
    } else {
      assert all[0] == actions[0] && all[1..] == actions[1..] + [a];
      RunSnoc(cfg, Next(cfg, s, actions[0]).value, actions[1..], a);
    }
  }

  // --------------------------------------------------- every interleaving

  /** The row a live handler still holds. */
  function RowOf(pc: Pc): Option<nat> {
    match pc
    case Arrived(_) => None
    case Failing => None
    case Done(_) => None
    case _ => Some(pc.row)
  }

  predicate DistinctSteps(rows: seq<Row>) {
    forall i, j :: 0 <= i < j < |rows| ==> rows[i].step != rows[j].step
  }

  /** The poison flag, recomputed from the history. */
  function PoisonedAt(log: seq<Event>): bool {
    if log == [] then false
    else
      var last := log[|log| - 1];
      if last.Poison? then true else if last.Unpoison? then false else PoisonedAt(log[..|log| - 1])
  }

  /** Rows: distinct steps, each held by at most one handler and sent at most once. */
  ghost predicate RowsSafe(s: State) {
    && DistinctSteps(s.shared.mutations)
    && (forall t | t in s.threads && RowOf(s.threads[t]).Some? :: RowOf(s.threads[t]).value < |s.shared.mutations|)
    && (forall t, u | t in s.threads && u in s.threads && t != u && RowOf(s.threads[t]).Some? ::
          RowOf(s.threads[t]) != RowOf(s.threads[u]))
    && (forall i | 0 <= i < |s.log| && s.log[i].ForwardEvent? :: s.log[i].row < |s.shared.mutations|)
    && (forall t | t in s.threads && s.threads[t].Admitted? :: ForwardEvent(s.threads[t].row) !in s.log)
    && (forall i, j | 0 <= i < j < |s.log| && s.log[i].ForwardEvent? && s.log[j].ForwardEvent? :: s.log[i].row != s.log[j].row)
  }

  /** History: the flag is what the history says, and no write was admitted while it was up. */
  ghost predicate PoisonSafe(s: State) { PoisonHistory(s.log, s.shared.poisoned) }

  ghost predicate PoisonHistory(log: seq<Event>, poisoned: bool) {
    && poisoned == PoisonedAt(log)
    && (forall i | 0 <= i < |log| && log[i].AdmitEvent? :: !PoisonedAt(log[..i]))
  }

  lemma PoisonGrows(log: seq<Event>, e: Event, poisoned: bool)
    requires PoisonHistory(log, poisoned) && (e.AdmitEvent? ==> !poisoned)
    ensures PoisonHistory(log + [e], if e.Poison? then true else if e.Unpoison? then false else poisoned)
  {
    var more := log + [e];
    assert more[..|log|] == log;
    assert PoisonedAt(more) == (if e.Poison? then true else if e.Unpoison? then false else poisoned);
    hide PoisonedAt;
    forall i | 0 <= i < |more| && more[i].AdmitEvent? ensures !PoisonedAt(more[..i]) {
      if i < |log| { assert more[..i] == log[..i]; }
    }
  }

  ghost predicate Safe(s: State) { RowsSafe(s) && PoisonSafe(s) }

  /** What every step other than an admission or a send amounts to: thread `t`
      moves without taking a new row, and at most the poison flag's history grows. */
  predicate Quiet(s: State, t: nat, s': State) {
    && t in s'.threads && s'.threads == s.threads[t := s'.threads[t]]
    && s'.shared.mutations == s.shared.mutations
    && !s'.threads[t].Admitted?
    && (RowOf(s'.threads[t]).None? || (t in s.threads && RowOf(s'.threads[t]) == RowOf(s.threads[t])))
    && (s'.log == s.log || (s'.log != [] && s'.log == s.log + [s'.log[|s'.log| - 1]]
                            && !s'.log[|s'.log| - 1].ForwardEvent? && !s'.log[|s'.log| - 1].AdmitEvent?))
    && s'.shared.poisoned == (if s'.log == s.log then s.shared.poisoned
                              else if s'.log[|s.log|].Poison? then true
                              else if s'.log[|s.log|].Unpoison? then false else s.shared.poisoned)
  }

  predicate Silent(a: Action) { a.Arrive? || a.Admit? || a.Check? || a.Retain? || a.Raise? }

  lemma SilentSteps(cfg: Config, s: State, a: Action)
    requires Next(cfg, s, a).Some? && Silent(a)
    requires a.Admit? ==> Next(cfg, s, a).value.threads[a.t] == Failing
    ensures Quiet(s, a.t, Next(cfg, s, a).value)
  {
  }

  lemma NotedSteps(cfg: Config, s: State, a: Action)
    requires Next(cfg, s, a).Some? && !Silent(a) && !a.Send?
    ensures Quiet(s, a.t, Next(cfg, s, a).value)
  {
  }

  lemma QuietRows(s: State, t: nat, s': State)
    requires RowsSafe(s) && Quiet(s, t, s')
    ensures RowsSafe(s')
  {
    assert forall i | 0 <= i < |s.log| :: s'.log[i] == s.log[i];
  }

  lemma QuietSafe(s: State, t: nat, s': State)
    requires Safe(s) && Quiet(s, t, s')
    ensures Safe(s')
  {
    hide RowsSafe;
    hide PoisonHistory;
    QuietRows(s, t, s');
    if s'.log != s.log {
      PoisonGrows(s.log, s'.log[|s.log|], s.shared.poisoned);
    }
  }

  lemma SentRows(s: State, t: nat, s': State)
    requires RowsSafe(s) && t in s.threads && s.threads[t].Admitted? && s'.shared == s.shared
    requires s'.threads == s.threads[t := Sent(s.threads[t].row)] && s'.log == s.log + [ForwardEvent(s.threads[t].row)]
    ensures RowsSafe(s')
  {
    assert forall i | 0 <= i < |s.log| :: s'.log[i] == s.log[i];
    assert s'.log[|s.log|] == ForwardEvent(s.threads[t].row);
  }

  lemma SendSafe(cfg: Config, s: State, t: nat)
    requires Safe(s) && Next(cfg, s, Send(t)).Some?
    ensures Safe(Next(cfg, s, Send(t)).value)
  {
    hide RowsSafe;
    hide PoisonHistory;
    SentRows(s, t, Next(cfg, s, Send(t)).value);
    PoisonGrows(s.log, ForwardEvent(s.threads[t].row), s.shared.poisoned);
  }

  lemma AdmittedRows(s: State, t: nat, r: Row, s': State)
    requires RowsSafe(s) && (forall i | 0 <= i < |s.shared.mutations| :: s.shared.mutations[i].step != r.step)
    requires s'.shared.mutations == s.shared.mutations + [r]
    requires s'.threads == s.threads[t := Admitted(|s.shared.mutations|)]
    requires s'.log == s.log + [AdmitEvent(|s.shared.mutations|)]
    ensures RowsSafe(s')
  {
    assert forall i | 0 <= i < |s.log| :: s'.log[i] == s.log[i];
  }

  lemma AdmitSafe(cfg: Config, s: State, t: nat, journal: Option<Journal>)
    requires Safe(s) && Next(cfg, s, Admit(t, journal)).Some?
    requires Next(cfg, s, Admit(t, journal)).value.threads[t] != Failing
    ensures Safe(Next(cfg, s, Admit(t, journal)).value)
  {
    hide RowsSafe;
    hide PoisonHistory;
    hide PlannedMutation;
    var s' := Next(cfg, s, Admit(t, journal)).value;
    AdmittedRows(s, t, s'.shared.mutations[|s.shared.mutations|], s');
    PoisonGrows(s.log, AdmitEvent(|s.shared.mutations|), s.shared.poisoned);
  }

  lemma NextSafe(cfg: Config, s: State, a: Action)
    requires Safe(s) && Next(cfg, s, a).Some?
    ensures Safe(Next(cfg, s, a).value)
  {
    var s' := Next(cfg, s, a).value;
    assert a.t in s'.threads;
    hide Next;
    hide Safe;
    if a.Send? {
      SendSafe(cfg, s, a.t);
    } else if a.Admit? && s'.threads[a.t] != Failing {
      AdmitSafe(cfg, s, a.t, a.journal);
    } else {
      if Silent(a) { SilentSteps(cfg, s, a); } else { NotedSteps(cfg, s, a); }
      QuietSafe(s, a.t, s');
    }
  }

  lemma {:induction false} RunSafe(cfg: Config, s: State, actions: seq<Action>)
    requires Safe(s) && Run(cfg, s, actions).Some?
    ensures Safe(Run(cfg, s, actions).value)
    decreases |actions|
  {
    hide Safe;
    if actions == [] {
    } else {
      NextSafe(cfg, s, actions[0]);
      RunSafe(cfg, Next(cfg, s, actions[0]).value, actions[1..]);
    }
  }

  /** In every interleaving of handlers, over any journal the proxy reads: no
      planned step is forwarded twice, and each admission found the proxy
      unpoisoned. */
  lemma ForwardedAtMostOnce(cfg: Config, mode: Mode, actions: seq<Action>)
    requires Run(cfg, Init(mode), actions).Some?
    ensures var s := Run(cfg, Init(mode), actions).value;
      && (forall i | 0 <= i < |s.log| && s.log[i].ForwardEvent? :: s.log[i].row < |s.shared.mutations|)
      && (forall i, j | 0 <= i < j < |s.log| && s.log[i].ForwardEvent? && s.log[j].ForwardEvent? ::
            s.shared.mutations[s.log[i].row].step != s.shared.mutations[s.log[j].row].step)
      && (forall i | 0 <= i < |s.log| && s.log[i].AdmitEvent? :: !PoisonedAt(s.log[..i]))
  {
    RunSafe(cfg, Init(mode), actions);
    var s := Run(cfg, Init(mode), actions).value;
    forall i, j | 0 <= i < j < |s.log| && s.log[i].ForwardEvent? && s.log[j].ForwardEvent?
      ensures s.shared.mutations[s.log[i].row].step != s.shared.mutations[s.log[j].row].step
    {
      assert s.log[i].row < s.log[j].row || s.log[j].row < s.log[i].row;
    }
  }

  /** In every interleaving, a fault is attributed to the write whose response is
      withheld if and only if no write was admitted after that one. */
  lemma AttributionIff(cfg: Config, mode: Mode, actions: seq<Action>, t: nat)
    requires Run(cfg, Init(mode), actions).Some?
    requires Next(cfg, Run(cfg, Init(mode), actions).value, Record(t)).Some?
    ensures var s := Run(cfg, Init(mode), actions).value; var row := s.threads[t].row;
      && row < |s.shared.mutations|
      && (Next(cfg, s, Record(t)).value.shared.faultStep == Some(s.shared.mutations[row])
          <==> row + 1 == |s.shared.mutations|)
  {
    RunSafe(cfg, Init(mode), actions);
    LastRowIff(Run(cfg, Init(mode), actions).value, Run(cfg, Init(mode), actions).value.threads[t].row);
  }

  /** Rows of distinct steps are distinct rows. */
  lemma LastRowIff(s: State, row: nat)
    requires Safe(s) && row < |s.shared.mutations|
    ensures s.shared.mutations[|s.shared.mutations| - 1] == s.shared.mutations[row] <==> row + 1 == |s.shared.mutations|
  {
    hide PoisonSafe;
  }

  // ------------------------------------------- when the poison flag is final

  /** A handler that can still reach the retention failure, which lifts the poison. */
  predicate Faultable(cfg: Config, sh: Shared, pc: Pc) {
    match pc
    case Admitted(row) => row < |sh.mutations| && sh.mode != Observe && sh.mutations[row].kind in cfg.phaseKinds
    case Sent(row) => row < |sh.mutations| && sh.mode != Observe && sh.mutations[row].kind in cfg.phaseKinds
    case Answered(row, resp) =>
      row < |sh.mutations| && Injects(cfg, sh, sh.mutations[row], resp) && LeavesReceipt(sh, resp)
    case Faulting(row, resp) => row < |sh.mutations| && LeavesReceipt(sh, resp)
    case Recorded(_, _) => sh.receipt.Some?
    case Aborting(_, _, stage) => stage <= 1
    case _ => false
  }

  /** The fault section of this response ends with some receipt to retain. */
  predicate LeavesReceipt(sh: Shared, resp: Response) {
    resp.payload.Upid? || (resp.payload.OtherData? && sh.receipt.Some?)
  }

  ghost predicate NoneFaultable(cfg: Config, s: State) {
    forall t | t in s.threads :: !Faultable(cfg, s.shared, s.threads[t])
  }

  ghost predicate Sealed(cfg: Config, s: State) { s.shared.poisoned && NoneFaultable(cfg, s) }

  /** A sealed proxy stays sealed, and admits and forwards no further write
      beyond those already admitted. */
  lemma SealedStep(cfg: Config, s: State, a: Action)
    requires Sealed(cfg, s) && Next(cfg, s, a).Some?
    ensures Sealed(cfg, Next(cfg, s, a).value)
    ensures Next(cfg, s, a).value.shared.mutations == s.shared.mutations
  {
    var s' := Next(cfg, s, a).value;
    assert a.Arrive? || !Faultable(cfg, s.shared, s.threads[a.t]);
    forall t | t in s'.threads ensures !Faultable(cfg, s'.shared, s'.threads[t]) {
      if t != a.t { assert !Faultable(cfg, s.shared, s.threads[t]); }
    }
  }

  lemma {:induction false} SealedForever(cfg: Config, s: State, actions: seq<Action>)
    requires Sealed(cfg, s) && Run(cfg, s, actions).Some?
    ensures Sealed(cfg, Run(cfg, s, actions).value)
    ensures Run(cfg, s, actions).value.shared.mutations == s.shared.mutations
    decreases |actions|
  {
    if actions == [] {
    } else {
      SealedStep(cfg, s, actions[0]);
      SealedForever(cfg, Next(cfg, s, actions[0]).value, actions[1..]);
    }
  }

  function Rank(pc: Pc): nat {
    match pc
    case Admitted(_) => 8
    case Sent(_) => 7
    case Answered(_, _) => 6
    case Faulting(_, _) => 5
    case Recorded(_, _) => 4
    case Aborting(_, _, stage) => if stage == 0 then 2 else 1
    case _ => 0
  }

  /** From a faultable handler there is always a way to an unpoisoned proxy: its
      response carries a receipt and the receipt cannot be written. */
  lemma {:induction false} CanUnseal(cfg: Config, s: State, t: nat) returns (actions: seq<Action>)
    requires t in s.threads && Faultable(cfg, s.shared, s.threads[t])
    ensures Run(cfg, s, actions).Some? && !Run(cfg, s, actions).value.shared.poisoned
    decreases Rank(s.threads[t])
  {
    var pc := s.threads[t];
    if pc.Aborting? && pc.stage == 1 {
      actions := [AbortStep(t)];
      assert actions[1..] == [];
    } else {
      var a := match pc
        case Admitted(_) => Send(t)
        case Sent(_) => Answer(t, Response(200, Upid("UPID:")))
        case Answered(_, _) => Check(t)
        case Faulting(_, _) => Record(t)
        case Recorded(_, _) => Retain(t, false, false)
        case _ => AbortStep(t);
      var rest := CanUnseal(cfg, Next(cfg, s, a).value, t);
      actions := [a] + rest;
      assert actions[1..] == rest;
    }
  }

  /** Exactly when a poisoned proxy is poisoned for the rest of the run, whatever
      the handlers and the journal do: when no handler in flight can still fail to
      retain a receipt. */
  lemma PoisonFinal(cfg: Config, s: State)
    requires s.shared.poisoned
    ensures NoneFaultable(cfg, s)
       <==> forall actions | Run(cfg, s, actions).Some? :: Run(cfg, s, actions).value.shared.poisoned
  {
    if NoneFaultable(cfg, s) {
      forall actions | Run(cfg, s, actions).Some? ensures Run(cfg, s, actions).value.shared.poisoned {
        SealedForever(cfg, s, actions);
      }
    } else {
      var t :| t in s.threads && Faultable(cfg, s.shared, s.threads[t]);
      var actions := CanUnseal(cfg, s, t);
    }
  }

  // ----------------------------------------------- what clients are given

  /** The response a handler holds. */
  function Holding(pc: Pc): Option<Response> {
    match pc
    case Answered(_, resp) => Some(resp)
    case Faulting(_, resp) => Some(resp)
    case Recorded(_, resp) => Some(resp)
    case Aborting(_, resp, _) => Some(resp)
    case Passing(_, resp) => Some(resp)
    case Cutting(_, resp) => Some(resp)
    case _ => None
  }

  /** Every response held or delivered is PVE's own answer to that row's write. */
  ghost predicate Genuine(s: State) {
    && (forall t | t in s.threads && Holding(s.threads[t]).Some? ::
          AnswerEvent(s.threads[t].row, Holding(s.threads[t]).value) in s.log)
    && (forall i | 0 <= i < |s.log| && s.log[i].DeliverEvent? :: AnswerEvent(s.log[i].row, s.log[i].resp) in s.log[..i])
  }

  /** What one step does to responses: handler `t` holds what it held, or what PVE
      has just answered, and delivers only what it held. */
  predicate Passes(s: State, t: nat, s': State) {
    && t in s'.threads && s'.threads == s.threads[t := s'.threads[t]]
    && (s'.log == s.log || (s'.log != [] && s'.log == s.log + [s'.log[|s'.log| - 1]]))
    && (Holding(s'.threads[t]).Some? ==>
          || (t in s.threads && Holding(s.threads[t]) == Holding(s'.threads[t]) && s.threads[t].row == s'.threads[t].row)
          || s'.log == s.log + [AnswerEvent(s'.threads[t].row, Holding(s'.threads[t]).value)])
    && (s'.log != s.log && s'.log[|s.log|].DeliverEvent? ==>
          && t in s.threads && Holding(s.threads[t]) == Some(s'.log[|s.log|].resp) && s.threads[t].row == s'.log[|s.log|].row)
  }

  lemma SilentPasses(cfg: Config, s: State, a: Action)
    requires Next(cfg, s, a).Some? && Silent(a)
    ensures Passes(s, a.t, Next(cfg, s, a).value)
  {
    hide AdmitShared;
  }

  lemma NotedPasses(cfg: Config, s: State, a: Action)
    requires Next(cfg, s, a).Some? && !Silent(a)
    ensures Passes(s, a.t, Next(cfg, s, a).value)
  {
  }

  lemma NextGenuine(cfg: Config, s: State, a: Action)
    requires Genuine(s) && Next(cfg, s, a).Some?
    ensures Genuine(Next(cfg, s, a).value)
  {
    hide Next;
    if Silent(a) { SilentPasses(cfg, s, a); } else { NotedPasses(cfg, s, a); }
    PassesGenuine(s, a.t, Next(cfg, s, a).value);
  }

  lemma PassesGenuine(s: State, t: nat, s': State)
    requires Genuine(s) && Passes(s, t, s')
    ensures Genuine(s')
  {
    hide Holding;
    assert forall i | 0 <= i < |s.log| :: s'.log[i] == s.log[i] && s'.log[..i] == s.log[..i];
    assert s'.log[..|s.log|] == s.log;
  }

  /** In every interleaving, aborted injections included, a client that gets a
      response gets the one PVE gave to its write, after PVE gave it. */
  lemma {:induction false} DeliveredAsAnswered(cfg: Config, s: State, actions: seq<Action>)
    requires Genuine(s) && Run(cfg, s, actions).Some?
    ensures Genuine(Run(cfg, s, actions).value)
    decreases |actions|
  {
    hide Genuine;
    if actions == [] {
    } else {
      NextGenuine(cfg, s, actions[0]);
      DeliveredAsAnswered(cfg, Next(cfg, s, actions[0]).value, actions[1..]);
    }
  }
}
