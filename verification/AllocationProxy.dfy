/** The loopback proxy that loses one allocation response
    (scripts/_storage_placement_faults.py), as handler threads that share
    counters under a lock, with everything else outside it. */
module AllocationProxy {
  import opened Text

  datatype Mode = ResponseLost | CrashAfterSubmission | AmbiguousError | ObserveAllocation

  datatype Verb = Get | Post | Put | Delete

  /** What `forward` reads of a request. `contentRoute` is whether the path is the
      content route of a storage the proxy was given, and `length` the
      Content-Length header if it is an integer. */
  datatype Request = Request(authorized: bool, apiPath: bool, verb: Verb, contentRoute: bool, length: Option<int>)

  predicate IsAllocation(r: Request) { r.verb.Post? && r.contentRoute }

  /** An authenticated, well-formed request that is not a read. */
  predicate IsWrite(r: Request) { r.authorized && r.apiPath && !r.verb.Get? }

  const MAX_BODY := 4 * 1024 * 1024

  datatype Evidence = Evidence(attempted: nat, forwarded: nat, withheld: bool, blocked: nat, status: Option<nat>)

  datatype Outcome =
    | Error(code: nat)          // the proxy's own error response
    | Delivered(status: nat)    // PVE's response
    | Lost(status: nat)         // PVE answered, and the client did not get the answer
    | Closed                    // the connection was closed on an exception

  datatype Pc =
    | Arrived
    | Counting                  // a write that is not an allocation, before its lock section
    | Attempting                // an allocation, before its first lock section
    | Reading                   // before the body is read
    | Checking                  // the body was read
    | Invalid                   // the allocation failed its check, before its lock section
    | Claiming                  // before the section that takes the one forward
    | Claimed
    | Sent
    | Answered(status: nat)
    | Noted(status: nat)
    | Done(outcome: Outcome)

  datatype Thread = Thread(req: Request, pc: Pc)

  /** The evidence, the handlers, and who entered which section of the lock. */
  datatype State = State(
    evidence: Evidence,
    threads: map<nat, Thread>,
    attempts: seq<nat>,
    strays: seq<nat>,
    rejects: seq<nat>,
    claims: seq<nat>,
    sends: seq<nat>)            // allocation writes that reached PVE, by handler

  datatype Action =
    | Arrive(t: nat, req: Request)
    | Classify(t: nat)
    | CountStray(t: nat)
    | CountAttempt(t: nat)
    | ReadBody(t: nat)
    | Validate(t: nat, planned: bool)
    | CountReject(t: nat)
    | Claim(t: nat)
    | Send(t: nat)
    | Answer(t: nat, status: nat)
    | NoteStatus(t: nat)
    | Finish(t: nat)
    | Drop(t: nat)

  function Init(): State { State(Evidence(0, 0, false, 0, None), map[], [], [], [], [], []) }

  // ------------------------------------------------------------ lock sections

  function Blocking(e: Evidence): Evidence { e.(blocked := e.blocked + 1) }

  /** Count the attempt; it may go on only while nothing was forwarded. */
  function Attempt(e: Evidence): (Evidence, bool) { (e.(attempted := e.attempted + 1), e.forwarded == 0) }

  /** Take the one forward, if it is still there. */
  function TakeForward(e: Evidence): (Evidence, bool) {
    if e.forwarded != 0 then (e, false) else (e.(forwarded := e.forwarded + 1), true)
  }

  predicate Withholds(mode: Mode, status: nat) { !mode.ObserveAllocation? && 200 <= status < 300 }

  // ------------------------------------------------------------------ steps

  function Goto(s: State, t: nat, pc: Pc): State
    requires t in s.threads
  {
    s.(threads := s.threads[t := s.threads[t].(pc := pc)])
  }

  function Next(mode: Mode, s: State, a: Action): Option<State> {
    if a.Arrive? then
      if a.t in s.threads then None else Some(s.(threads := s.threads[a.t := Thread(a.req, Arrived)]))
    else if a.t !in s.threads then None
    else
      var t, req, pc, e := a.t, s.threads[a.t].req, s.threads[a.t].pc, s.evidence;
      match a
      case Classify(_) =>
        if pc != Arrived then None
        else if !req.authorized then Some(Goto(s, t, Done(Error(403))))
        else if !req.apiPath then Some(Goto(s, t, Done(Error(400))))
        else if !req.verb.Get? && !IsAllocation(req) then Some(Goto(s, t, Counting))
        else if IsAllocation(req) then Some(Goto(s, t, Attempting))
        else Some(Goto(s, t, Reading))
      case CountStray(_) =>
        if pc != Counting then None
        else Some(Goto(s, t, Done(Error(503))).(evidence := Blocking(e), strays := s.strays + [t]))
      case CountAttempt(_) =>
        if pc != Attempting then None
        else
          var (e', free) := Attempt(e);
          Some(Goto(s, t, if free then Reading else Done(Error(503))).(evidence := e', attempts := s.attempts + [t]))
      case ReadBody(_) =>
        if pc != Reading then None
        else if req.length.None? then Some(Goto(s, t, Done(Error(400))))
        else if req.length.value < 0 || req.length.value > MAX_BODY then Some(Goto(s, t, Done(Error(413))))
        else Some(Goto(s, t, Checking))
      case Validate(_, planned) =>
        if pc != Checking then None
        else if !IsAllocation(req) then Some(Goto(s, t, Claimed))
        else Some(Goto(s, t, if planned then Claiming else Invalid))
      case CountReject(_) =>
        if pc != Invalid then None
        else Some(Goto(s, t, Done(Error(503))).(evidence := Blocking(e), rejects := s.rejects + [t]))
      case Claim(_) =>
        if pc != Claiming then None
        else
          var (e', taken) := TakeForward(e);
          if taken then Some(Goto(s, t, Claimed).(evidence := e', claims := s.claims + [t]))
          else Some(Goto(s, t, Done(Error(503))))
      case Send(_) =>
        if pc != Claimed then None
        else Some(Goto(s, t, Sent).(sends := if IsAllocation(req) then s.sends + [t] else s.sends))
      case Answer(_, status) =>
        if pc != Sent then None else Some(Goto(s, t, Answered(status)))
      case NoteStatus(_) =>
        if !pc.Answered? then None
        else Some(Goto(s, t, Noted(pc.status)).(evidence := if IsAllocation(req) then e.(status := Some(pc.status)) else e))
      case Finish(_) =>
        if !pc.Noted? then None
        else if IsAllocation(req) && Withholds(mode, pc.status)
        then Some(Goto(s, t, Done(Lost(pc.status))).(evidence := e.(withheld := true)))
        else Some(Goto(s, t, Done(Delivered(pc.status))))
      case Drop(_) =>
        // An exception outside a lock section: the upstream call failed, or the client went away.
        if pc.Done? || pc == Counting || pc == Attempting || pc == Invalid || pc == Claiming then None
        else Some(Goto(s, t, Done(Closed)))
  }

  function Run(mode: Mode, s: State, actions: seq<Action>): Option<State>
    decreases |actions|
  {
    if actions == [] then Some(s)
    else
      match Next(mode, s, actions[0])
      case None => None
      case Some(s') => Run(mode, s', actions[1..])
  }

  /** A run and one more step. */
  lemma {:induction false} RunSnoc(mode: Mode, s: State, actions: seq<Action>, a: Action)
    requires Run(mode, s, actions).Some?
    ensures Run(mode, s, actions + [a]) == Next(mode, Run(mode, s, actions).value, a)
    decreases |actions|
  {
    hide Next;
    var all := actions + [a];
    if actions == [] {
      assert all[0] == a && all[1..] == [];
    } else {
      assert all[0] == actions[0] && all[1..] == actions[1..] + [a];
      RunSnoc(mode, Next(mode, s, actions[0]).value, actions[1..], a);
    }
  }

  // ------------------------------------------------------------- invariant

  /** Where a handler can be, given the sections it has entered. */
  predicate ThreadOk(s: State, t: nat, th: Thread) {
    match th.pc
    case Arrived => Fresh(s, t)
    case Counting => Fresh(s, t) && IsWrite(th.req) && !IsAllocation(th.req)
    case Attempting => Fresh(s, t) && IsWrite(th.req) && IsAllocation(th.req)
    case Reading => PastCount(s, t, th) && t !in s.claims
    case Checking => PastCount(s, t, th) && t !in s.claims
    case Invalid => PastCount(s, t, th) && IsAllocation(th.req) && t !in s.claims
    case Claiming => PastCount(s, t, th) && IsAllocation(th.req) && t !in s.claims
    case Claimed => Forwarder(s, t, th) && t !in s.sends
    case Sent => Forwarder(s, t, th) && Reached(s, t, th)
    case Answered(_) => Forwarder(s, t, th) && Reached(s, t, th)
    case Noted(status) =>
      Forwarder(s, t, th) && Reached(s, t, th) && (IsAllocation(th.req) ==> s.evidence.status == Some(status))
    case Done(outcome) =>
      && (IsWrite(th.req) ==> t in s.attempts || t in s.strays || outcome.Closed?)
      && (outcome.Delivered? || outcome.Lost? ==> Forwarder(s, t, th) && Reached(s, t, th))
      && (outcome.Lost? ==> IsAllocation(th.req) && s.evidence.withheld && s.evidence.status == Some(outcome.status))
  }

  /** The handler has entered no section of the lock. */
  predicate Fresh(s: State, t: nat) { t !in s.attempts && t !in s.strays && t !in s.claims && t !in s.sends }

  predicate PastCount(s: State, t: nat, th: Thread) {
    th.req.authorized && th.req.apiPath && (th.req.verb.Get? || IsAllocation(th.req)) && (IsAllocation(th.req) <==> t in s.attempts)
  }

  predicate Forwarder(s: State, t: nat, th: Thread) {
    PastCount(s, t, th) && (IsAllocation(th.req) <==> t in s.claims)
  }

  predicate Reached(s: State, t: nat, th: Thread) { IsAllocation(th.req) <==> t in s.sends }

  /** The counters are the lengths of the histories, and there is room for one forward. */
  predicate Counts(s: State) {
    && s.evidence.attempted == |s.attempts|
    && s.evidence.blocked == |s.strays| + |s.rejects|
    && s.evidence.forwarded == |s.claims| <= 1
    && |s.sends| <= 1
    && (s.sends != [] ==> s.claims == s.sends)
  }

  ghost predicate Inv(mode: Mode, s: State) {
    && Counts(s)
    && (s.evidence.withheld ==> s.sends != [] && LostBy(mode, s, s.sends[0]))
    && (forall t :: t !in s.threads ==> Fresh(s, t))
    && (forall t | t in s.threads :: ThreadOk(s, t, s.threads[t]))
  }

  /** Handler `t` forwarded the one allocation, got a success and withheld it. */
  ghost predicate LostBy(mode: Mode, s: State, t: nat) {
    && t in s.threads && s.threads[t].pc.Done? && s.threads[t].pc.outcome.Lost?
    && t in s.claims && s.sends == [t]
    && Withholds(mode, s.threads[t].pc.outcome.status) && s.evidence.status == Some(s.threads[t].pc.outcome.status)
  }

  lemma CountsOk(mode: Mode, s: State, a: Action)
    requires Inv(mode, s) && Next(mode, s, a).Some?
    ensures Counts(Next(mode, s, a).value)
  {
    assert a.Arrive? || ThreadOk(s, a.t, s.threads[a.t]);
  }

  /** The handlers other than the one that moves are where they were. */
  lemma EarlyOthersOk(mode: Mode, s: State, a: Action, u: nat)
    requires Inv(mode, s) && Next(mode, s, a).Some? && u in s.threads && u != a.t && Early(a)
    ensures ThreadOk(Next(mode, s, a).value, u, s.threads[u])
  {
    assert ThreadOk(s, u, s.threads[u]);
    assert a.Arrive? || ThreadOk(s, a.t, s.threads[a.t]);
  }

  lemma LateOthersOk(mode: Mode, s: State, a: Action, u: nat)
    requires Inv(mode, s) && Next(mode, s, a).Some? && u in s.threads && u != a.t && !Early(a)
    ensures ThreadOk(Next(mode, s, a).value, u, s.threads[u])
  {
    assert ThreadOk(s, u, s.threads[u]);
    assert ThreadOk(s, a.t, s.threads[a.t]);
  }

  /** The steps up to the check of the body. */
  predicate Early(a: Action) {
    a.Arrive? || a.Classify? || a.CountStray? || a.CountAttempt? || a.ReadBody? || a.Validate?
  }

  lemma EarlyMoverOk(mode: Mode, s: State, a: Action)
    requires Inv(mode, s) && Next(mode, s, a).Some? && Early(a)
    ensures var s' := Next(mode, s, a).value; ThreadOk(s', a.t, s'.threads[a.t])
  {
    assert a.Arrive? || ThreadOk(s, a.t, s.threads[a.t]);
  }

  lemma LateMoverOk(mode: Mode, s: State, a: Action)
    requires Inv(mode, s) && Next(mode, s, a).Some? && !Early(a)
    ensures var s' := Next(mode, s, a).value; ThreadOk(s', a.t, s'.threads[a.t])
  {
    assert ThreadOk(s, a.t, s.threads[a.t]);
  }

  lemma WithheldOk(mode: Mode, s: State, a: Action)
    requires Inv(mode, s) && Next(mode, s, a).Some?
    ensures var s' := Next(mode, s, a).value;
      s'.evidence.withheld ==> s'.sends != [] && LostBy(mode, s', s'.sends[0])
  {
    if a.Arrive? { return; }
    assert ThreadOk(s, a.t, s.threads[a.t]);
    var s' := Next(mode, s, a).value;
    if s.evidence.withheld {
      var t := s.sends[0];
      assert s.claims == [t] && a.t != t;
      assert s'.sends == s.sends;
    }
  }

  lemma UnknownFresh(mode: Mode, s: State, a: Action)
    requires Inv(mode, s) && Next(mode, s, a).Some?
    ensures var s' := Next(mode, s, a).value; forall t :: t !in s'.threads ==> Fresh(s', t)
  {
    hide Counts;
    hide ThreadOk;
    var s' := Next(mode, s, a).value;
    forall t | t !in s'.threads ensures Fresh(s', t) { assert t != a.t && Fresh(s, t); }
  }

  lemma NextInv(mode: Mode, s: State, a: Action)
    requires Inv(mode, s) && Next(mode, s, a).Some?
    ensures Inv(mode, Next(mode, s, a).value)
  {
    var s' := Next(mode, s, a).value;
    CountsOk(mode, s, a);
    WithheldOk(mode, s, a);
    UnknownFresh(mode, s, a);
    forall u | u in s'.threads ensures ThreadOk(s', u, s'.threads[u]) {
      if u == a.t {
        if Early(a) { EarlyMoverOk(mode, s, a); } else { LateMoverOk(mode, s, a); }
      } else {
        if Early(a) { EarlyOthersOk(mode, s, a, u); } else { LateOthersOk(mode, s, a, u); }
      }
    }
  }

  lemma {:induction false} RunInv(mode: Mode, s: State, actions: seq<Action>)
    requires Inv(mode, s) && Run(mode, s, actions).Some?
    ensures Inv(mode, Run(mode, s, actions).value)
    decreases |actions|
  {
    hide Inv;
    if actions == [] {
    } else {
      NextInv(mode, s, actions[0]);
      RunInv(mode, Next(mode, s, actions[0]).value, actions[1..]);
    }
  }

  /** In every interleaving at most one allocation write reaches PVE, and every
      other finished write got an error of the proxy's own or a closed connection. */
  lemma SingleAllocation(mode: Mode, actions: seq<Action>)
    requires Run(mode, Init(), actions).Some?
    ensures var s := Run(mode, Init(), actions).value;
      && |s.sends| <= 1
      && forall t | t in s.threads && IsWrite(s.threads[t].req) && s.threads[t].pc.Done? && t !in s.sends ::
           s.threads[t].pc.outcome.Error? || s.threads[t].pc.outcome.Closed?
  {
    RunInv(mode, Init(), actions);
    var s := Run(mode, Init(), actions).value;
    forall t | t in s.threads && IsWrite(s.threads[t].req) && s.threads[t].pc.Done? && t !in s.sends
      ensures s.threads[t].pc.outcome.Error? || s.threads[t].pc.outcome.Closed?
    {
      assert ThreadOk(s, t, s.threads[t]);
    }
  }

  /** The evidence the scenario insists on. */
  predicate Isolated(e: Evidence) { e.attempted == 1 && e.forwarded == 1 && e.withheld && e.blocked == 0 }

  /** Evidence of one isolated submission means there was one: one handler sent the
      one allocation, PVE answered it with success, the client never got that
      answer, and every other write is still on its way to its first counter or was
      closed before it. */
  lemma EvidenceMeansOne(mode: Mode, actions: seq<Action>) returns (t: nat)
    requires Run(mode, Init(), actions).Some? && Isolated(Run(mode, Init(), actions).value.evidence)
    ensures var s := Run(mode, Init(), actions).value;
      && LostBy(mode, s, t)
      && forall u | u in s.threads && u != t && IsWrite(s.threads[u].req) ::
           Fresh(s, u) && s.threads[u].pc in {Arrived, Counting, Attempting, Done(Closed)}
  {
    RunInv(mode, Init(), actions);
    var s := Run(mode, Init(), actions).value;
    t := s.sends[0];
    assert ThreadOk(s, t, s.threads[t]);
    assert s.attempts == [t];
    assert s.strays == [];
    assert s.claims == [t];
    forall u | u in s.threads && u != t && IsWrite(s.threads[u].req)
      ensures Fresh(s, u) && s.threads[u].pc in {Arrived, Counting, Attempting, Done(Closed)}
    {
      assert ThreadOk(s, u, s.threads[u]);
    }
  }
}
