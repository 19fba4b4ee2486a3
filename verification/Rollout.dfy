/** Journal histories over a rollout (scripts/_storage_placement_rollout.py): each
    snapshot may only add to the one before it. */
module Rollout {
  import opened CanonicalJson

  /** An attempt; a missing value and null read the same. */
  datatype Attempt = Attempt(plan: Json, completion: Json)

  datatype Record = Record(
    id: Json, namespace: Json, kind: Json, agentId: Json, intent: Json,
    steps: seq<Json>, verifications: seq<Json>, attempts: seq<Attempt>)

  type History = map<string, Record>

  // ----------------------------------------------------- what is preserved

  predicate SameIdentity(a: Record, b: Record) {
    a.id == b.id && a.namespace == b.namespace && a.kind == b.kind && a.agentId == b.agentId && a.intent == b.intent
  }

  /** The plan is frozen, and a completion once recorded stays. */
  predicate AttemptPreserved(a: Attempt, b: Attempt) {
    a.plan == b.plan && (a.completion != Null ==> a.completion == b.completion)
  }

  predicate RecordPreserved(a: Record, b: Record) {
    && SameIdentity(a, b)
    && a.steps <= b.steps && a.verifications <= b.verifications
    && |a.attempts| <= |b.attempts|
    && forall i | 0 <= i < |a.attempts| :: AttemptPreserved(a.attempts[i], b.attempts[i])
  }

  predicate Preserves(previous: History, current: History) {
    previous.Keys <= current.Keys && forall id | id in previous :: RecordPreserved(previous[id], current[id])
  }

  lemma PreservesReflexive(h: History)
    ensures Preserves(h, h)
  {
  }

  lemma RecordTransitive(a: Record, b: Record, c: Record)
    requires RecordPreserved(a, b) && RecordPreserved(b, c)
    ensures RecordPreserved(a, c)
  {
    assert a.steps <= c.steps && a.verifications <= c.verifications;
    forall i | 0 <= i < |a.attempts| ensures AttemptPreserved(a.attempts[i], c.attempts[i]) {
      assert AttemptPreserved(a.attempts[i], b.attempts[i]) && AttemptPreserved(b.attempts[i], c.attempts[i]);
    }
  }

  lemma PreservesTransitive(a: History, b: History, c: History)
    requires Preserves(a, b) && Preserves(b, c)
    ensures Preserves(a, c)
  {
    forall id | id in a ensures RecordPreserved(a[id], c[id]) {
      RecordTransitive(a[id], b[id], c[id]);
    }
  }

  // ------------------------------------------- the same, field by field

  /** Every value of the old list is in its place in the new one. */
  predicate Begins(before: seq<Json>, after: seq<Json>) {
    |before| <= |after| && forall i | 0 <= i < |before| :: after[i] == before[i]
  }

  /** No record is lost; of each the five identity fields are the same, the two lists of
      evidence begin as they did, no attempt is dropped, each attempt has the plan it
      had, and the completion it had if it had one. */
  ghost predicate Extends(previous: History, current: History) {
    forall id | id in previous ::
      && id in current
      && current[id].id == previous[id].id && current[id].namespace == previous[id].namespace
      && current[id].kind == previous[id].kind && current[id].agentId == previous[id].agentId
      && current[id].intent == previous[id].intent
      && Begins(previous[id].steps, current[id].steps) && Begins(previous[id].verifications, current[id].verifications)
      && |current[id].attempts| >= |previous[id].attempts|
      && forall i | 0 <= i < |previous[id].attempts| ::
           && current[id].attempts[i].plan == previous[id].attempts[i].plan
           && (previous[id].attempts[i].completion == Null
               || current[id].attempts[i].completion == previous[id].attempts[i].completion)
  }

  lemma BeginsIff(before: seq<Json>, after: seq<Json>)
    ensures Begins(before, after) <==> before <= after
  {
  }

  lemma ExtendsIff(previous: History, current: History)
    ensures Extends(previous, current) <==> Preserves(previous, current)
  {
    hide Begins;
    forall id | id in previous && id in current
      ensures Begins(previous[id].steps, current[id].steps) <==> previous[id].steps <= current[id].steps
      ensures Begins(previous[id].verifications, current[id].verifications)
         <==> previous[id].verifications <= current[id].verifications
    {
      BeginsIff(previous[id].steps, current[id].steps);
      BeginsIff(previous[id].verifications, current[id].verifications);
    }
  }

  // ------------------------------------------------------------- the checks

  method CheckRecord(before: Record, after: Record) returns (ok: bool)
    ensures ok <==> RecordPreserved(before, after)
  {
    if !SameIdentity(before, after) {
      return false;
    }
    if |after.steps| < |before.steps| || after.steps[..|before.steps|] != before.steps {
      return false;
    }
    if |after.verifications| < |before.verifications| || after.verifications[..|before.verifications|] != before.verifications {
      return false;
    }
    if |after.attempts| < |before.attempts| {
      return false;
    }
    var i := 0;
    while i < |before.attempts|
      invariant 0 <= i <= |before.attempts|
      invariant forall j | 0 <= j < i :: AttemptPreserved(before.attempts[j], after.attempts[j])
    {
      if before.attempts[i].plan != after.attempts[i].plan {
        return false;
      }
      if before.attempts[i].completion != Null && before.attempts[i].completion != after.attempts[i].completion {
        return false;
      }
      i := i + 1;
    }
    ok := true;
  }

  /** preserve_history accepts exactly the histories that preserve the old one. */
  method PreserveHistory(previous: History, current: History) returns (ok: bool)
    ensures ok <==> Preserves(previous, current)
    ensures ok <==> Extends(previous, current)
  {
    ExtendsIff(previous, current);
    hide Extends;
    hide RecordPreserved;
    if !(previous.Keys <= current.Keys) {
      return false;
    }
    var todo := previous.Keys;
    while todo != {}
      invariant todo <= previous.Keys
      invariant forall id | id in previous && id !in todo :: RecordPreserved(previous[id], current[id])
      decreases |todo|
    {
      var id :| id in todo;
      var same := CheckRecord(previous[id], current[id]);
      if !same {
        return false;
      }
      todo := todo - {id};
    }
    ok := true;
  }

  // -------------------------------------------------------------- whole runs

  /** One observation: the Director's UUID as it and its API report it, and the
      records of both journals. */
  datatype Observation = Observation(uuid: string, apiUuid: string, remote: History, local: History)

  /** The histories a rollout keeps. */
  datatype Kept = Kept(uuid: string, remote: History, local: History)

  /** What a snapshot leaves. The remote history is replaced before the local one is
      compared, so a snapshot refused over the local journal still moves it. */
  function Snapshot(k: Kept, o: Observation): (Kept, bool) {
    if o.uuid == "" || o.apiUuid != o.uuid || o.uuid != k.uuid || !Preserves(k.remote, o.remote) then (k, false)
    else if !Preserves(k.local, o.local) then (k.(remote := o.remote), false)
    else (Kept(k.uuid, o.remote, o.local), true)
  }

  /** A refused snapshot leaves the kept histories alone if and only if it was refused
      before the local journal was compared, or showed the same remote history. */
  lemma RefusedIsInertIff(k: Kept, o: Observation)
    requires !Snapshot(k, o).1
    ensures Snapshot(k, o).0 == k
       <==> || o.uuid == "" || o.apiUuid != o.uuid || o.uuid != k.uuid || !Preserves(k.remote, o.remote)
            || o.remote == k.remote
  {
    hide Preserves;
  }

  function BareRecord(kind: string): Record { Record(Null, Null, Str(kind), Null, Null, [], [], []) }

  /** A refused snapshot that moves the remote history: the remote journal has gained
      its first record, and the local one has lost its only one. */
  lemma RefusedMoves()
    ensures var k := Kept("d", map[], map["a" := BareRecord("vm")]);
      var o := Observation("d", "d", map["b" := BareRecord("disk")], map[]);
      !Snapshot(k, o).1 && Snapshot(k, o).0.remote == o.remote != k.remote
  {
    var k := Kept("d", map[], map["a" := BareRecord("vm")]);
    var o := Observation("d", "d", map["b" := BareRecord("disk")], map[]);
    assert "a" in k.local.Keys && "a" !in o.local.Keys;
    assert !Preserves(k.local, o.local);
    assert "b" in o.remote && "b" !in k.remote;
  }

  function Run(k: Kept, os: seq<Observation>): Kept
    decreases |os|
  {
    if os == [] then k else Run(Snapshot(k, os[0]).0, os[1..])
  }

  lemma SnapshotPreserves(k: Kept, o: Observation)
    ensures var s := Snapshot(k, o);
      Preserves(k.remote, s.0.remote) && Preserves(k.local, s.0.local) && s.0.uuid == k.uuid
  {
    PreservesReflexive(k.remote);
    PreservesReflexive(k.local);
    hide Preserves;
  }

  /** Whatever snapshots are taken, accepted or refused, the histories kept at the
      end preserve the first ones. */
  lemma {:induction false} RunPreserves(k: Kept, os: seq<Observation>)
    ensures Preserves(k.remote, Run(k, os).remote) && Preserves(k.local, Run(k, os).local) && Run(k, os).uuid == k.uuid
    decreases |os|
  {
    if os == [] {
      PreservesReflexive(k.remote);
      PreservesReflexive(k.local);
    } else {
      var next := Snapshot(k, os[0]).0;
      SnapshotPreserves(k, os[0]);
      hide Snapshot;
      RunPreserves(next, os[1..]);
      PreservesTransitive(k.remote, next.remote, Run(next, os[1..]).remote);
      PreservesTransitive(k.local, next.local, Run(next, os[1..]).local);
    }
  }

  /** An accepted snapshot anywhere in a run shows every record of the first one, as
      it was but for what was added: the later inclusion check cannot fail. */
  lemma AcceptedKeepsFirst(k: Kept, os: seq<Observation>, o: Observation)
    requires Snapshot(Run(k, os), o).1
    ensures Preserves(k.remote, o.remote) && k.remote.Keys <= o.remote.Keys && Preserves(k.local, o.local)
    ensures o.uuid == k.uuid
  {
    RunPreserves(k, os);
    PreservesTransitive(k.remote, Run(k, os).remote, o.remote);
    PreservesTransitive(k.local, Run(k, os).local, o.local);
  }

  /** RolloutScenarios, once it has looked at the Director for the first time. */
  class Scenarios {
    var uuid: string
    var remoteHistory: History
    var localHistory: History

    ghost function Now(): Kept
      reads this
    {
      Kept(uuid, remoteHistory, localHistory)
    }

    constructor (first: Observation)
      ensures Now() == Kept(first.uuid, first.remote, first.local)
    {
      uuid, remoteHistory, localHistory := first.uuid, first.remote, first.local;
    }

    /** snapshot */
    method TakeSnapshot(o: Observation) returns (ok: bool)
      modifies `remoteHistory, `localHistory
      ensures (Now(), ok) == Snapshot(old(Now()), o)
      ensures ok <==> && o.uuid != "" && o.apiUuid == o.uuid && o.uuid == uuid
                      && Extends(old(remoteHistory), o.remote) && Extends(old(localHistory), o.local)
      ensures ok ==> remoteHistory == o.remote && localHistory == o.local
      ensures !ok ==> localHistory == old(localHistory) && remoteHistory in {old(remoteHistory), o.remote}
      ensures Preserves(old(remoteHistory), remoteHistory) && Preserves(old(localHistory), localHistory)
    {
      SnapshotPreserves(Now(), o);
      ExtendsIff(remoteHistory, o.remote);
      ExtendsIff(localHistory, o.local);
      hide Extends;
      hide Preserves;
      if o.uuid == "" || o.apiUuid != o.uuid || o.uuid != uuid {
        return false;
      }
      ok := PreserveHistory(remoteHistory, o.remote);
      if !ok {
        return;
      }
      remoteHistory := o.remote;
      ok := PreserveHistory(localHistory, o.local);
      if ok {
        localHistory := o.local;
      }
    }
  }
}
