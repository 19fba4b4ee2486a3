/** The proxy object of the allocation faults, and the two checks that compare
    the journal and the volumes before and after a fault. */
module AllocationFault {
  import opened Text
  import opened AllocationProxy

  /** LoopbackPVEFaultProxy. Its counters are the evidence of a run of
      `AllocationProxy`: every section of `forward` takes the step it stands for. */
  class LoopbackProxy {
    const mode: Mode
    var attempted: nat
    var forwarded: nat
    var withheld: bool
    var blocked: nat
    var status: Option<nat>
    ghost var history: seq<Action>     // the steps taken so far
    ghost var state: State             // where they lead

    constructor (mode: Mode)
      ensures Valid() && this.mode == mode && state == Init()
    {
      this.mode := mode;
      attempted, forwarded, withheld, blocked, status := 0, 0, false, 0, None;
      history, state := [], Init();
    }

    function View(): Evidence
      reads this
    {
      Evidence(attempted, forwarded, withheld, blocked, status)
    }

    /** The object is where some run of handlers has led. */
    ghost predicate Valid()
      reads this
    {
      Run(mode, Init(), history) == Some(state) && View() == state.evidence
    }

    /** Handler t serves this request and is at this point. */
    ghost predicate IsAt(t: nat, req: Request, pc: Pc)
      reads this
    {
      t in state.threads && state.threads[t] == Thread(req, pc)
    }

    /** What holds of every run holds of the object. */
    lemma AlwaysInv()
      requires Valid()
      ensures Inv(mode, state) && forwarded <= 1 && |state.sends| <= forwarded
    {
      RunInv(mode, Init(), history);
    }

    ghost method Take(a: Action)
      requires Run(mode, Init(), history) == Some(state) && Next(mode, state, a).Some?
      modifies `history, `state
      ensures Run(mode, Init(), history) == Some(state)
      ensures history == old(history) + [a] && Some(state) == Next(mode, old(state), a)
    {
      hide Run;
      hide Next;
      RunSnoc(mode, Init(), history, a);
      history, state := history + [a], Next(mode, state, a).value;
    }

    /** The section for a write that is not a planned allocation: it is refused, and
        nothing goes to PVE. */
    method BlockMutation(t: nat, req: Request, stray: bool)
      requires Valid() && IsAt(t, req, if stray then Counting else Invalid)
      modifies `blocked, `history, `state
      ensures Valid() && Some(state) == Next(mode, old(state), if stray then CountStray(t) else CountReject(t))
      ensures IsAt(t, req, Done(Error(503))) && state.sends == old(state).sends
      ensures blocked == |state.strays| + |state.rejects| == old(blocked) + 1
    {
      hide Run;
      blocked := blocked + 1;
      Take(if stray then CountStray(t) else CountReject(t));
      AlwaysInv();
      hide Next;
    }

    /** The section that counts an attempt: it may go on only while nothing was
        forwarded, and then no allocation has reached PVE. */
    method CountAttempt(t: nat, req: Request) returns (free: bool)
      requires Valid() && IsAt(t, req, Attempting)
      modifies `attempted, `history, `state
      ensures Valid() && Some(state) == Next(mode, old(state), AllocationProxy.CountAttempt(t))
      ensures IsAt(t, req, if free then Reading else Done(Error(503))) && state.sends == old(state).sends
      ensures if free then state.sends == [] else forwarded == 1
      ensures free <==> old(forwarded) == 0
      ensures attempted == |state.attempts| == old(attempted) + 1
    {
      hide Run;
      attempted := attempted + 1;
      free := forwarded == 0;
      Take(AllocationProxy.CountAttempt(t));
      AlwaysInv();
      hide Next;
    }

    /** The section that takes the one forward: whoever gets it is the only one that
        ever did, and no allocation has reached PVE yet. */
    method ClaimForward(t: nat, req: Request) returns (taken: bool)
      requires Valid() && IsAt(t, req, Claiming)
      modifies `forwarded, `history, `state
      ensures Valid() && Some(state) == Next(mode, old(state), Claim(t))
      ensures IsAt(t, req, if taken then Claimed else Done(Error(503))) && state.sends == old(state).sends
      ensures forwarded == 1 && (taken ==> state.claims == [t] && state.sends == [])
      ensures taken <==> old(forwarded) == 0
    {
      hide Run;
      AlwaysInv();
      if forwarded != 0 {
        Take(Claim(t));
        return false;
      }
      forwarded := forwarded + 1;
      Take(Claim(t));
      return true;
    }

    /** The answer of PVE, for an allocation: its status is kept, and a success is
        withheld unless the proxy only observes. */
    method Settle(t: nat, req: Request, code: nat) returns (lost: bool)
      requires Valid() && IsAt(t, req, Answered(code))
      modifies `status, `withheld, `history, `state
      ensures Valid() && state.sends == old(state).sends
      ensures IsAt(t, req, Done(if lost then Lost(code) else Delivered(code)))
      ensures lost <==> IsAllocation(req) && Withholds(mode, code)
      ensures lost ==> state.sends == [t] && withheld && status == Some(code)
    {
      hide Run;
      if IsAllocation(req) {
        status := Some(code);
      }
      Take(NoteStatus(t));
      lost := IsAllocation(req) && Withholds(mode, code);
      if lost {
        withheld := true;
      }
      Take(Finish(t));
      if lost {
        SentByOne(t, req, code);
      }
    }

    lemma SentByOne(t: nat, req: Request, code: nat)
      requires Valid() && IsAt(t, req, Done(Lost(code)))
      ensures state.sends == [t]
    {
      AlwaysInv();
      hide Run;
      hide Next;
      assert ThreadOk(state, t, state.threads[t]);
    }

    /** forward, for one request whose handler no other one interrupts. `planned` is
        what the check of an allocation against the journal gives, and `upstream` is
        None when the call to PVE raised. After one forward every write is refused,
        and no request ever brings a second allocation to PVE. */
    method Forward(t: nat, req: Request, planned: bool, upstream: Option<nat>) returns (outcome: Outcome)
      requires Valid() && t !in state.threads
      modifies this
      ensures Valid() && IsAt(t, req, Done(outcome)) && forwarded <= 1 && |state.sends| <= 1
      ensures old(forwarded) != 0 && IsWrite(req) ==> outcome == Error(503) && state.sends == old(state).sends
      ensures IsWrite(req) && !IsAllocation(req) ==> outcome == Error(503) && state.sends == old(state).sends
      ensures outcome.Lost? ==> state.sends == [t] && upstream == Some(outcome.status)
      ensures outcome.Delivered? ==> upstream == Some(outcome.status)
      ensures !req.authorized ==> outcome == Error(403) && state.sends == old(state).sends
      ensures req.authorized && !req.apiPath ==> outcome == Error(400) && state.sends == old(state).sends
      ensures req.authorized && req.apiPath && (req.verb == Put || req.verb == Delete || (req.verb == Post && !req.contentRoute)) ==>
        outcome == Error(503) && state.sends == old(state).sends && blocked == old(blocked) + 1
      ensures req.authorized && req.apiPath && req.verb == Get ==>
        && state.sends == old(state).sends
        && outcome == if req.length.None? then Error(400)
                      else if !(0 <= req.length.value <= 4194304) then Error(413)
                      else if upstream.None? then Closed else Delivered(upstream.value)
      ensures req.authorized && req.apiPath && req.verb == Post && req.contentRoute ==>
        && attempted == old(attempted) + 1
        && if old(forwarded) != 0 then outcome == Error(503)
           else if req.length.None? then outcome == Error(400) && state.sends == []
           else if !(0 <= req.length.value <= 4194304) then outcome == Error(413) && state.sends == []
           else if !planned then outcome == Error(503) && state.sends == [] && blocked == old(blocked) + 1
           else
             && state.sends == [t] && forwarded == 1
             && outcome == if upstream.None? then Closed
                           else if mode != ObserveAllocation && 200 <= upstream.value <= 299 then Lost(upstream.value)
                           else Delivered(upstream.value)
    {
      AlwaysInv();
      outcome := Enter(t, req, planned, upstream);
      AlwaysInv();
      hide Run;
      hide Next;
      hide Inv;
    }

    method Enter(t: nat, req: Request, planned: bool, upstream: Option<nat>) returns (outcome: Outcome)
      requires Valid() && t !in state.threads
      modifies this
      ensures Valid() && IsAt(t, req, Done(outcome))
      ensures old(forwarded) != 0 && IsWrite(req) ==> outcome == Error(503) && state.sends == old(state).sends
      ensures IsWrite(req) && !IsAllocation(req) ==> outcome == Error(503) && state.sends == old(state).sends
      ensures outcome.Lost? ==> state.sends == [t] && upstream == Some(outcome.status)
      ensures outcome.Delivered? ==> upstream == Some(outcome.status)
      ensures !(req.authorized && req.apiPath) ==>
        outcome == Error(if req.authorized then 400 else 403) && state.sends == old(state).sends
      ensures IsWrite(req) && !IsAllocation(req) ==> blocked == old(blocked) + 1
      ensures IsWrite(req) && IsAllocation(req) ==> attempted == old(attempted) + 1
      ensures req.authorized && req.apiPath && (req.verb.Get? || (IsAllocation(req) && old(forwarded) == 0)) ==>
        Transferred(req, planned, upstream, outcome)
      ensures req.authorized && req.apiPath && (req.verb.Get? || (IsAllocation(req) && old(forwarded) == 0)) ==>
        state.sends == old(state).sends + if IsAllocation(req) && GoodLength(req) && planned then [t] else []
      ensures IsWrite(req) && IsAllocation(req) && old(forwarded) == 0 && GoodLength(req) ==>
        if planned then forwarded == 1 else blocked == old(blocked) + 1
    {
      var refused := Admit(t, req);
      hide Run;
      hide Next;
      if refused.Some? {
        return Error(refused.value);
      }
      if !req.verb.Get? && !IsAllocation(req) {
        BlockMutation(t, req, true);
        return Error(503);
      }
      if IsAllocation(req) {
        var free := CountAttempt(t, req);
        if !free {
          return Error(503);
        }
      }
      outcome := Transfer(t, req, planned, upstream);
    }

    /** How a request ends that got as far as its body, and is not kept from the one
        forward by an earlier one. */
    predicate Transferred(req: Request, planned: bool, upstream: Option<nat>, outcome: Outcome) {
      outcome ==
      if req.length.None? then Error(400)
      else if !GoodLength(req) then Error(413)
      else if IsAllocation(req) && !planned then Error(503)
      else if upstream.None? then Closed
      else if IsAllocation(req) && Withholds(mode, upstream.value) then Lost(upstream.value)
      else Delivered(upstream.value)
    }

    /** The two refusals before any section. */
    method Admit(t: nat, req: Request) returns (refused: Option<nat>)
      requires Valid() && t !in state.threads
      modifies `history, `state
      ensures Valid() && state.sends == old(state).sends
      ensures refused == if !req.authorized then Some(403) else if !req.apiPath then Some(400) else None
      ensures refused.Some? ==> !(req.authorized && req.apiPath) && IsAt(t, req, Done(Error(refused.value)))
      ensures refused.None? ==> req.authorized && req.apiPath
      ensures refused.None? ==>
        IsAt(t, req, if IsAllocation(req) then Attempting else if req.verb.Get? then Reading else Counting)
    {
      hide Run;
      Take(Arrive(t, req));
      Take(Classify(t));
      if !req.authorized {
        return Some(403);
      }
      if !req.apiPath {
        return Some(400);
      }
      return None;
    }

    /** The body, its check, the claim and the call to PVE. */
    method Transfer(t: nat, req: Request, planned: bool, upstream: Option<nat>) returns (outcome: Outcome)
      requires Valid() && IsAt(t, req, Reading)
      modifies this
      ensures Valid() && IsAt(t, req, Done(outcome)) && attempted == old(attempted)
      ensures outcome.Lost? ==> state.sends == [t] && upstream == Some(outcome.status)
      ensures outcome.Delivered? ==> upstream == Some(outcome.status)
      ensures IsAllocation(req) && planned && old(forwarded) != 0 && GoodLength(req) ==> outcome == Error(503)
      ensures !IsAllocation(req) || old(forwarded) == 0 || !planned || !GoodLength(req) ==>
        Transferred(req, planned, upstream, outcome)
      ensures state.sends == old(state).sends
        + if IsAllocation(req) && GoodLength(req) && planned && old(forwarded) == 0 then [t] else []
      ensures IsAllocation(req) && GoodLength(req) ==> if planned then forwarded == 1 else blocked == old(blocked) + 1
    {
      hide Run;
      var bad := ReadRequest(t, req, planned);
      hide Next;
      if bad.Some? {
        return Error(bad.value);
      }
      if IsAllocation(req) {
        if !planned {
          BlockMutation(t, req, false);
          return Error(503);
        }
        var taken := ClaimForward(t, req);
        if !taken {
          return Error(503);
        }
      }
      var answered := CallUpstream(t, req, upstream);
      if !answered {
        return Closed;
      }
      var lost := Settle(t, req, upstream.value);
      return if lost then Lost(upstream.value) else Delivered(upstream.value);
    }

    method ReadRequest(t: nat, req: Request, planned: bool) returns (bad: Option<nat>)
      requires Valid() && IsAt(t, req, Reading)
      modifies `history, `state
      ensures Valid() && state.sends == old(state).sends
      ensures bad == if req.length.None? then Some(400) else if !GoodLength(req) then Some(413) else None
      ensures bad.Some? ==> IsAt(t, req, Done(Error(bad.value)))
      ensures bad.None? ==> IsAt(t, req, if !IsAllocation(req) then Claimed else if planned then Claiming else Invalid)
    {
      hide Run;
      Take(ReadBody(t));
      if req.length.None? {
        return Some(400);
      }
      if req.length.value < 0 || req.length.value > MAX_BODY {
        return Some(413);
      }
      Take(Validate(t, planned));
      return None;
    }

    method CallUpstream(t: nat, req: Request, upstream: Option<nat>) returns (answered: bool)
      requires Valid() && IsAt(t, req, Claimed)
      modifies `history, `state
      ensures Valid() && answered == upstream.Some?
      ensures state.sends == old(state).sends + if IsAllocation(req) then [t] else []
      ensures IsAt(t, req, if answered then Answered(upstream.value) else Done(Closed))
    {
      hide Run;
      Take(Send(t));
      answered := upstream.Some?;
      if answered {
        Take(Answer(t, upstream.value));
      } else {
        Take(Drop(t));
      }
    }
  }

  predicate GoodLength(req: Request) { req.length.Some? && 0 <= req.length.value <= MAX_BODY }

  // ------------------------------------------------------- the final checks

  datatype JournalRow = JournalRow(id: string, state: string, cid: string, rest: string)

  datatype Volume = Volume(node: string, storage: string, volid: string)

  datatype Retention = Retention(volid: string, allocation: string)

  datatype Snapshot = Snapshot(records: seq<JournalRow>, retained: seq<Retention>, volumes: seq<Volume>)

  /** The row a dictionary of the records keeps for an id: the last one. */
  function RowOf(records: seq<JournalRow>, id: string): Option<JournalRow> {
    if records == [] then None
    else
      var last := records[|records| - 1];
      if last.id == id then Some(last) else RowOf(records[..|records| - 1], id)
  }

  predicate Listed(records: seq<JournalRow>, id: string) { exists i :: 0 <= i < |records| && records[i].id == id }

  /** The after rows whose id the before rows do not have. */
  function Created(before: Snapshot, after: seq<JournalRow>): seq<JournalRow> {
    if after == [] then []
    else (if Listed(before.records, after[0].id) then [] else [after[0]]) + Created(before, after[1..])
  }

  function NewVolids(before: Snapshot, after: Snapshot): set<string> {
    set v | v in after.volumes && v !in before.volumes :: v.volid
  }

  /** What the single-attempt check accepts. */
  predicate SingleAttempt(before: Snapshot, after: Snapshot) {
    var created, volids := Created(before, after.records), NewVolids(before, after);
    && (forall i | 0 <= i < |before.records| ::
          RowOf(after.records, before.records[i].id) == RowOf(before.records, before.records[i].id))
    && |created| <= 1
    && (forall v | v in before.volumes :: v in after.volumes)
    && |volids| <= 1
    && (volids != {} ==> created != [])
    && (forall volid | volid in volids :: RetainedFor(after.retained, volid, created))
  }

  predicate RetainedFor(retained: seq<Retention>, volid: string, created: seq<JournalRow>) {
    exists i, j :: 0 <= i < |retained| && 0 <= j < |created| && retained[i] == Retention(volid, created[j].id)
  }

  /** {row id: row for row in records} */
  method RowsById(records: seq<JournalRow>) returns (byId: map<string, JournalRow>)
    ensures forall id :: id in byId <==> RowOf(records, id).Some?
    ensures forall id | id in byId :: RowOf(records, id) == Some(byId[id])
  {
    byId := map[];
    var i := 0;
    while i < |records|
      invariant 0 <= i <= |records|
      invariant forall id :: id in byId <==> RowOf(records[..i], id).Some?
      invariant forall id | id in byId :: RowOf(records[..i], id) == Some(byId[id])
    {
      assert records[..i + 1][..i] == records[..i];
      byId := byId[records[i].id := records[i]];
      i := i + 1;
    }
    assert records[..i] == records;
  }

  lemma {:induction false} ListedRow(records: seq<JournalRow>, id: string)
    ensures Listed(records, id) <==> RowOf(records, id).Some?
  {
    if records == [] {
    } else {
      var n := |records| - 1;
      ListedRow(records[..n], id);
      if Listed(records[..n], id) {
        var i :| 0 <= i < n && records[..n][i].id == id;
        assert records[i].id == id;
      }
      if Listed(records, id) && records[n].id != id {
        var i :| 0 <= i < |records| && records[i].id == id;
        assert records[..n][i].id == id;
      }
    }
  }

  lemma {:induction false} CreatedSnoc(before: Snapshot, rows: seq<JournalRow>, row: JournalRow)
    ensures Created(before, rows + [row])
         == Created(before, rows) + (if Listed(before.records, row.id) then [] else [row])
  {
    if rows == [] {
      assert (rows + [row])[1..] == [];
    } else {
      assert (rows + [row])[1..] == rows[1..] + [row];
      CreatedSnoc(before, rows[1..], row);
    }
  }

  // ---------------------------------- what the check accepts, row by row

  /** The last row of its id, the one a dictionary keeps. */
  predicate IsLast(rows: seq<JournalRow>, i: nat) {
    i < |rows| && forall k | i < k < |rows| :: rows[k].id != rows[i].id
  }

  predicate IsNew(before: Snapshot, rows: seq<JournalRow>, j: nat) {
    j < |rows| && forall i | 0 <= i < |before.records| :: before.records[i].id != rows[j].id
  }

  /** The row the dictionary kept before is the one it keeps after. */
  predicate Keeps(before: Snapshot, after: Snapshot) {
    forall i | 0 <= i < |before.records| && IsLast(before.records, i) ::
      exists j | 0 <= j < |after.records| :: IsLast(after.records, j) && after.records[j] == before.records[i]
  }

  predicate OneNewRow(before: Snapshot, after: Snapshot) {
    forall i, j | 0 <= i < |after.records| && 0 <= j < |after.records|
                  && IsNew(before, after.records, i) && IsNew(before, after.records, j) :: i == j
  }

  /** Every volume that was there is there, and all new ones have one id. */
  predicate OneNewVolume(before: Snapshot, after: Snapshot) {
    && (forall v | v in before.volumes :: v in after.volumes)
    && forall u, v | u in after.volumes && v in after.volumes && u !in before.volumes && v !in before.volumes :: u.volid == v.volid
  }

  /** Every new volume is retained for a new row. */
  predicate NewRetained(before: Snapshot, after: Snapshot) {
    forall v | v in after.volumes && v !in before.volumes ::
      exists j | 0 <= j < |after.records| ::
        IsNew(before, after.records, j) && Retention(v.volid, after.records[j].id) in after.retained
  }

  lemma {:induction false} RowOfLast(records: seq<JournalRow>, id: string)
    ensures RowOf(records, id).Some? ==>
      exists i | 0 <= i < |records| :: IsLast(records, i) && RowOf(records, id) == Some(records[i]) && records[i].id == id
    ensures forall i | 0 <= i < |records| && IsLast(records, i) && records[i].id == id :: RowOf(records, id) == Some(records[i])
  {
    if records == [] {
    } else {
      var n := |records| - 1;
      if records[n].id == id {
        assert IsLast(records, n);
      } else {
        var init := records[..n];
        RowOfLast(init, id);
        assert forall i | 0 <= i < n :: init[i] == records[i];
        if RowOf(records, id).Some? {
          var i :| 0 <= i < |init| && IsLast(init, i) && RowOf(init, id) == Some(init[i]) && init[i].id == id;
          assert IsLast(records, i);
        }
        forall i | 0 <= i < |records| && IsLast(records, i) && records[i].id == id ensures RowOf(records, id) == Some(records[i]) {
          assert IsLast(init, i);
        }
      }
    }
  }

  lemma KeepsIff(before: Snapshot, after: Snapshot)
    ensures Keeps(before, after) <==> forall i | 0 <= i < |before.records| ::
      RowOf(after.records, before.records[i].id) == RowOf(before.records, before.records[i].id)
  {
    hide RowOf;
    hide IsLast;
    var b, a := before.records, after.records;
    forall i | 0 <= i < |b| && Keeps(before, after) ensures RowOf(a, b[i].id) == RowOf(b, b[i].id) {
      ListedRow(b, b[i].id);
      RowOfLast(b, b[i].id);
      var k :| 0 <= k < |b| && IsLast(b, k) && RowOf(b, b[i].id) == Some(b[k]) && b[k].id == b[i].id;
      var j :| 0 <= j < |a| && IsLast(a, j) && a[j] == b[k];
      RowOfLast(a, b[i].id);
    }
    if forall i | 0 <= i < |b| :: RowOf(a, b[i].id) == RowOf(b, b[i].id) {
      forall i | 0 <= i < |b| && IsLast(b, i) ensures exists j | 0 <= j < |a| :: IsLast(a, j) && a[j] == b[i] {
        RowOfLast(b, b[i].id);
        RowOfLast(a, b[i].id);
      }
    }
  }

  lemma {:induction false} CreatedCount(before: Snapshot, rows: seq<JournalRow>)
    ensures Created(before, rows) == [] <==> forall j | 0 <= j < |rows| :: !IsNew(before, rows, j)
    ensures |Created(before, rows)| <= 1 <==>
      forall i, j | 0 <= i < |rows| && 0 <= j < |rows| && IsNew(before, rows, i) && IsNew(before, rows, j) :: i == j
  {
    if rows == [] {
    } else {
      var rest := rows[1..];
      CreatedCount(before, rest);
      assert IsNew(before, rows, 0) <==> !Listed(before.records, rows[0].id);
      assert forall j | 0 <= j < |rest| :: IsNew(before, rest, j) <==> IsNew(before, rows, j + 1);
      assert forall j | 0 < j < |rows| :: IsNew(before, rows, j) <==> IsNew(before, rest, j - 1);
      hide Listed;
      hide IsNew;
    }
  }

  lemma VolumesIff(before: Snapshot, after: Snapshot)
    ensures |NewVolids(before, after)| <= 1 <==>
      forall u, v | u in after.volumes && v in after.volumes && u !in before.volumes && v !in before.volumes :: u.volid == v.volid
  {
    var volids := NewVolids(before, after);
    if |volids| <= 1 {
      forall u, v | u in after.volumes && v in after.volumes && u !in before.volumes && v !in before.volumes
        ensures u.volid == v.volid
      {
        assert u.volid in volids && v.volid in volids;
        if u.volid != v.volid { TwoOf(volids, u.volid, v.volid); }
      }
    } else {
      var x :| x in volids;
      assert volids == {x} + (volids - {x});
      var y :| y in volids - {x};
      var u :| u in after.volumes && u !in before.volumes && u.volid == x;
      var v :| v in after.volumes && v !in before.volumes && v.volid == y;
    }
  }

  lemma TwoOf(s: set<string>, x: string, y: string)
    requires x in s && y in s && x != y
    ensures |s| > 1
  {
    assert |s - {x}| >= 1 by { assert y in s - {x}; }
  }

  lemma RetainedIff(before: Snapshot, after: Snapshot)
    ensures NewRetained(before, after) <==> forall volid | volid in NewVolids(before, after) ::
      RetainedFor(after.retained, volid, Created(before, after.records))
  {
    var created := Created(before, after.records);
    CreatedRows(before, after.records);
    hide Created;
    forall volid ensures RetainedFor(after.retained, volid, created) <==>
      exists j | 0 <= j < |after.records| :: IsNew(before, after.records, j) && Retention(volid, after.records[j].id) in after.retained
    {
      if RetainedFor(after.retained, volid, created) {
        var i, j :| 0 <= i < |after.retained| && 0 <= j < |created| && after.retained[i] == Retention(volid, created[j].id);
        assert created[j] in created;
        var k :| 0 <= k < |after.records| && after.records[k] == created[j];
        assert IsNew(before, after.records, k);
      }
      if j :| 0 <= j < |after.records| && IsNew(before, after.records, j) && Retention(volid, after.records[j].id) in after.retained {
        assert after.records[j] in created;
        var k :| 0 <= k < |created| && created[k] == after.records[j];
        var i :| 0 <= i < |after.retained| && after.retained[i] == Retention(volid, after.records[j].id);
      }
    }
    hide RetainedFor;
    forall v | v in after.volumes && v !in before.volumes ensures v.volid in NewVolids(before, after) { }
  }

  /** The single-attempt check on the rows and volumes themselves. */
  lemma SingleAttemptIff(before: Snapshot, after: Snapshot)
    ensures SingleAttempt(before, after)
       <==> Keeps(before, after) && OneNewRow(before, after) && OneNewVolume(before, after) && NewRetained(before, after)
  {
    hide RowOf;
    hide Created;
    KeepsIff(before, after);
    CreatedCount(before, after.records);
    VolumesIff(before, after);
    RetainedIff(before, after);
    hide NewVolids;
    hide NewRetained;
    hide Keeps;
    hide IsNew;
  }

  /** _verify_single_attempt: every record and volume that was there is still
      there unchanged, and at most one new allocation with at most one new volume,
      which the audit retains for that allocation. */
  method VerifySingleAttempt(before: Snapshot, after: Snapshot) returns (r: Option<(seq<JournalRow>, set<string>)>)
    ensures r.Some? <==> SingleAttempt(before, after)
    ensures r.Some?
       <==> Keeps(before, after) && OneNewRow(before, after) && OneNewVolume(before, after) && NewRetained(before, after)
    ensures r.Some? ==> r.value == (Created(before, after.records), NewVolids(before, after))
  {
    SingleAttemptIff(before, after);
    hide Keeps;
    hide OneNewRow;
    hide OneNewVolume;
    hide NewRetained;
    var original := RowsById(before.records);
    var current := RowsById(after.records);
    var i := 0;
    while i < |before.records|
      invariant 0 <= i <= |before.records|
      invariant forall k :: 0 <= k < i ==>
        RowOf(after.records, before.records[k].id) == RowOf(before.records, before.records[k].id)
    {
      var id := before.records[i].id;
      ListedRow(before.records, id);
      if id !in current || current[id] != original[id] { return None; }
      i := i + 1;
    }
    var created: seq<JournalRow> := [];
    i := 0;
    while i < |after.records|
      invariant 0 <= i <= |after.records|
      invariant created == Created(before, after.records[..i])
    {
      assert after.records[..i + 1] == after.records[..i] + [after.records[i]];
      CreatedSnoc(before, after.records[..i], after.records[i]);
      ListedRow(before.records, after.records[i].id);
      if after.records[i].id !in original { created := created + [after.records[i]]; }
      i := i + 1;
    }
    assert after.records[..i] == after.records;
    if |created| > 1 { return None; }
    if exists v :: v in before.volumes && v !in after.volumes { return None; }
    var volids := set v | v in after.volumes && v !in before.volumes :: v.volid;
    if |volids| > 1 || (volids != {} && created == []) { return None; }
    if exists volid :: volid in volids && !RetainedFor(after.retained, volid, created) { return None; }
    return Some((created, volids));
  }

  /** _verify_submission */
  predicate Submitted(allocation: string, created: seq<JournalRow>, volids: set<string>, requireVolume: bool) {
    && |created| == 1 && created[0].id == allocation
    && created[0].state in {"planned", "submitted", "observed", "reconciliation_required"}
    && created[0].cid == ""
    && (requireVolume ==> |volids| == 1)
  }

  /** Both checks together pin the fault down to one artifact: the new rows are one
      row, all new volumes are one volume id, and it is retained for that row. */
  lemma OneArtifact(before: Snapshot, after: Snapshot, allocation: string) returns (volid: string)
    requires SingleAttempt(before, after)
    requires Submitted(allocation, Created(before, after.records), NewVolids(before, after), true)
    ensures forall v :: v in after.volumes && v !in before.volumes ==> v.volid == volid
    ensures exists v :: v in after.volumes && v !in before.volumes && v.volid == volid
    ensures Retention(volid, allocation) in after.retained
    ensures !Listed(before.records, allocation) && Listed(after.records, allocation)
    ensures forall row | row in after.records && !Listed(before.records, row.id) :: row.id == allocation
  {
    var volids, created := NewVolids(before, after), Created(before, after.records);
    volid :| volid in volids;
    assert volids == {volid} by {
      assert |volids - {volid}| == 0;
      assert volids == (volids - {volid}) + {volid};
    }
    forall v | v in after.volumes && v !in before.volumes ensures v.volid == volid { assert v.volid in volids; }
    CreatedRows(before, after.records);
    assert created[0] in created;
  }

  lemma {:induction false} CreatedRows(before: Snapshot, rows: seq<JournalRow>)
    ensures forall row :: row in Created(before, rows) <==> row in rows && !Listed(before.records, row.id)
  {
    if rows == [] {
    } else {
      CreatedRows(before, rows[1..]);
      assert rows == [rows[0]] + rows[1..];
    }
  }
}
