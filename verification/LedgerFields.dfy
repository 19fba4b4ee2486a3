/** Which records transition_ledger accepts and with which totals, on the plan's and
    the journal's own items. */
module LedgerFields {
  import opened Text
  import opened Ledger

  // ----------------------------------------------------------- what is counted

  /** A step of this kind acquires for this role. */
  predicate HasRole(kind: string, role: string) {
    || (role == "root" && (kind == "vm.QEMU.Create" || kind == "vm.Nodes.CreateQemuClone"))
    || (role == "ephemeral" && kind == "vm.Storage.CreateVolume")
    || (role == "iso" && kind == "vm.Storage.Upload")
  }

  /** How many planned charges on the backing have this role and size. */
  function PlanCount(charges: seq<PlanCharge>, backing: string, role: string, bytes: int): nat {
    if charges == [] then 0
    else
      var c := charges[0];
      (if c.capacityKey == backing && c.role == role && c.bytes == bytes then 1 else 0) + PlanCount(charges[1..], backing, role, bytes)
  }

  function ChargeCount(charges: seq<Charge>, backing: string, bytes: int): nat {
    if charges == [] then 0
    else (if charges[0].backing == backing && charges[0].planned == bytes then 1 else 0) + ChargeCount(charges[1..], backing, bytes)
  }

  /** How many charges of the attempt on the backing have this role and planned size. */
  function JournalCount(steps: seq<Step>, attempt: nat, backing: string, role: string, bytes: int): nat {
    if steps == [] then 0
    else
      (if steps[0].attempt == attempt && HasRole(steps[0].kind, role) then ChargeCount(steps[0].charges, backing, bytes) else 0)
      + JournalCount(steps[1..], attempt, backing, role, bytes)
  }

  function PlannedOn(charges: seq<PlanCharge>, backing: string): int {
    if charges == [] then 0
    else (if charges[0].capacityKey == backing then charges[0].bytes else 0) + PlannedOn(charges[1..], backing)
  }

  function ChargesOn(charges: seq<Charge>, backing: string): int {
    if charges == [] then 0
    else (if charges[0].backing == backing then charges[0].acquired else 0) + ChargesOn(charges[1..], backing)
  }

  function AcquiredOn(steps: seq<Step>, attempt: nat, backing: string): int {
    if steps == [] then 0
    else (if steps[0].attempt == attempt then ChargesOn(steps[0].charges, backing) else 0) + AcquiredOn(steps[1..], attempt, backing)
  }

  // ------------------------------------------------------- the accepted records

  /** The last target of the role. */
  predicate LastTarget(targets: seq<Target>, k: nat, role: string) {
    k < |targets| && targets[k].role == role && forall i | k < i < |targets| :: targets[i].role != role
  }

  predicate IsRootStep(r: Record, attempt: nat, k: nat) {
    && k < |r.steps| && r.steps[k].attempt == attempt && r.steps[k].observed
    && (r.steps[k].kind == "vm.QEMU.Create" || r.steps[k].kind == "vm.Nodes.CreateQemuClone")
  }

  predicate OnlyRootStep(r: Record, attempt: nat, k: nat) {
    IsRootStep(r, attempt, k) && forall i | 0 <= i < |r.steps| && i != k :: !IsRootStep(r, attempt, i)
  }

  /** A charge in order: its step's kind has a role, its parts make the whole, and what
      it acquired was observed with nothing outstanding. */
  predicate ChargeOk(step: Step, c: Charge) {
    && (HasRole(step.kind, "root") || HasRole(step.kind, "ephemeral") || HasRole(step.kind, "iso"))
    && c.planned >= 0 && c.acquired >= 0 && c.outstanding >= 0 && c.planned == c.acquired + c.outstanding
    && (c.acquired != 0 ==> step.observed && c.outstanding == 0)
  }

  predicate ChargesOk(steps: seq<Step>, attempt: nat, backing: string) {
    forall i, j | 0 <= i < |steps| && steps[i].attempt == attempt && 0 <= j < |steps[i].charges| && steps[i].charges[j].backing == backing ::
      ChargeOk(steps[i], steps[i].charges[j])
  }

  /** Of no role and size are there more charges than the plan has. */
  ghost predicate WithinPlan(r: Record, attempt: nat, charges: seq<PlanCharge>, backing: string) {
    forall role, bytes :: JournalCount(r.steps, attempt, backing, role, bytes) <= PlanCount(charges, backing, role, bytes)
  }

  /** Root target `a`, ephemeral target `b` and root step `k` of the active plan and
      attempt make the record acceptable. */
  ghost predicate AcceptableAs(r: Record, plan: Plan, attempt: nat, a: nat, b: nat, k: nat) {
    && LastTarget(plan.targets, a, "root") && LastTarget(plan.targets, b, "ephemeral")
    && plan.targets[a].storageId == plan.targets[b].storageId && plan.targets[a].capacityKey == plan.targets[b].capacityKey
    && OnlyRootStep(r, attempt, k) && r.steps[k].upid != "" && r.steps[k].volids != []
    && var backing := plan.targets[a].capacityKey;
    && ChargesOk(r.steps, attempt, backing)
    && WithinPlan(r, attempt, plan.charges, backing)
    && 0 < AcquiredOn(r.steps, attempt, backing) <= PlannedOn(plan.charges, backing)
  }

  // ------------------------------------------------------------------ proofs

  lemma RoleIff(kind: string, role: string)
    ensures RoleOf(kind) == Some(role) <==> HasRole(kind, role)
    ensures RoleOf(kind).Some? <==> HasRole(kind, "root") || HasRole(kind, "ephemeral") || HasRole(kind, "iso")
  {
  }

  lemma {:induction false} TargetIff(targets: seq<Target>, role: string)
    ensures TargetOf(targets, role).Some? ==>
      exists k | 0 <= k < |targets| :: LastTarget(targets, k, role) && TargetOf(targets, role) == Some(targets[k])
    ensures forall k | 0 <= k < |targets| && LastTarget(targets, k, role) :: TargetOf(targets, role) == Some(targets[k])
  {
    if targets == [] {
    } else {
      var n := |targets| - 1;
      if targets[n].role == role {
        assert LastTarget(targets, n, role);
      } else {
        var init := targets[..n];
        TargetIff(init, role);
        assert forall i | 0 <= i < n :: init[i] == targets[i];
        if TargetOf(init, role).Some? {
          var k :| 0 <= k < |init| && LastTarget(init, k, role) && TargetOf(init, role) == Some(init[k]);
          assert LastTarget(targets, k, role);
        }
        forall k | 0 <= k < |targets| && LastTarget(targets, k, role) ensures TargetOf(targets, role) == Some(targets[k]) {
          assert LastTarget(init, k, role);
        }
      }
    }
  }

  lemma {:induction false} BudgetCounts(charges: seq<PlanCharge>, backing: string, role: string, bytes: int)
    ensures multiset(BudgetOf(charges, backing))[Key(role, bytes)] == PlanCount(charges, backing, role, bytes)
  {
    if charges == [] {
    } else {
      BudgetCounts(charges[1..], backing, role, bytes);
      var head := if charges[0].capacityKey == backing then [Key(charges[0].role, charges[0].bytes)] else [];
      assert BudgetOf(charges, backing) == head + BudgetOf(charges[1..], backing);
    }
  }

  lemma {:induction false} BudgetSums(charges: seq<PlanCharge>, backing: string)
    ensures Bytes(BudgetOf(charges, backing)) == PlannedOn(charges, backing)
  {
    if charges == [] {
    } else {
      BudgetSums(charges[1..], backing);
      var rest := BudgetOf(charges[1..], backing);
      if charges[0].capacityKey == backing {
        var head := Key(charges[0].role, charges[0].bytes);
        assert ([head] + rest)[1..] == rest;
      } else {
        assert [] + rest == rest;
      }
    }
  }

  /** The journal's entries of the attempt on the backing, from step i on. */
  function From(steps: seq<Step>, attempt: nat, backing: string): seq<Entry> {
    Entries(StepsOf(steps, attempt), backing)
  }

  lemma FromHead(steps: seq<Step>, attempt: nat, backing: string)
    requires steps != []
    ensures From(steps, attempt, backing)
         == (if steps[0].attempt == attempt then EntriesOf(steps[0], steps[0].charges, backing) else [])
            + From(steps[1..], attempt, backing)
  {
    hide EntriesOf;
    var rest := StepsOf(steps[1..], attempt);
    if steps[0].attempt == attempt {
      assert ([steps[0]] + rest)[1..] == rest;
    } else {
      assert [] + rest == rest;
      assert [] + Entries(rest, backing) == Entries(rest, backing);
    }
  }

  lemma {:induction false} EntriesSum(step: Step, charges: seq<Charge>, backing: string)
    ensures Acquired(EntriesOf(step, charges, backing)) == ChargesOn(charges, backing)
  {
    if charges == [] {
    } else {
      EntriesSum(step, charges[1..], backing);
      var rest := EntriesOf(step, charges[1..], backing);
      if charges[0].backing == backing {
        var head := Entry(RoleOf(step.kind), step.observed, charges[0]);
        assert ([head] + rest)[1..] == rest;
      } else {
        assert [] + rest == rest;
      }
    }
  }

  lemma {:induction false} JournalSums(steps: seq<Step>, attempt: nat, backing: string)
    ensures Acquired(From(steps, attempt, backing)) == AcquiredOn(steps, attempt, backing)
  {
    if steps == [] {
    } else {
      hide From;
      hide EntriesOf;
      FromHead(steps, attempt, backing);
      JournalSums(steps[1..], attempt, backing);
      EntriesSum(steps[0], steps[0].charges, backing);
      var head := if steps[0].attempt == attempt then EntriesOf(steps[0], steps[0].charges, backing) else [];
      AppendedBytes(head, From(steps[1..], attempt, backing));
      hide Acquired;
      assert head == [] ==> head + From(steps[1..], attempt, backing) == From(steps[1..], attempt, backing);
    }
  }

  lemma {:induction false} EntriesCount(step: Step, charges: seq<Charge>, backing: string, role: string, bytes: int)
    requires RoleOf(step.kind).Some?
    ensures Drawn(EntriesOf(step, charges, backing))[Key(role, bytes)]
         == if HasRole(step.kind, role) then ChargeCount(charges, backing, bytes) else 0
  {
    RoleIff(step.kind, role);
    hide HasRole;
    if charges == [] {
    } else {
      EntriesCount(step, charges[1..], backing, role, bytes);
      var rest := EntriesOf(step, charges[1..], backing);
      if charges[0].backing == backing {
        var head := Entry(RoleOf(step.kind), step.observed, charges[0]);
        assert ([head] + rest)[1..] == rest;
        assert KeysOf([head] + rest) == [KeyOf(head)] + KeysOf(rest);
      } else {
        assert [] + rest == rest;
      }
    }
  }

  lemma {:induction false} JournalCounts(steps: seq<Step>, attempt: nat, backing: string, role: string, bytes: int)
    requires ChargesOk(steps, attempt, backing)
    ensures Drawn(From(steps, attempt, backing))[Key(role, bytes)] == JournalCount(steps, attempt, backing, role, bytes)
  {
    if steps == [] {
    } else {
      hide From;
      hide EntriesOf;
      FromHead(steps, attempt, backing);
      TailOk(steps, attempt, backing);
      JournalCounts(steps[1..], attempt, backing, role, bytes);
      var rest := From(steps[1..], attempt, backing);
      if steps[0].attempt == attempt {
        HeadCount(steps, attempt, backing, role, bytes);
        AppendedDrawn(EntriesOf(steps[0], steps[0].charges, backing), rest);
      } else {
        assert [] + rest == rest;
      }
      hide Drawn;
      hide ChargesOk;
    }
  }

  lemma TailOk(steps: seq<Step>, attempt: nat, backing: string)
    requires steps != [] && ChargesOk(steps, attempt, backing)
    ensures ChargesOk(steps[1..], attempt, backing)
  {
    hide ChargeOk;
    var rest := steps[1..];
    forall i, j | 0 <= i < |rest| && rest[i].attempt == attempt && 0 <= j < |rest[i].charges| && rest[i].charges[j].backing == backing
      ensures ChargeOk(rest[i], rest[i].charges[j])
    {
      assert rest[i] == steps[i + 1];
    }
  }

  lemma HeadCount(steps: seq<Step>, attempt: nat, backing: string, role: string, bytes: int)
    requires steps != [] && steps[0].attempt == attempt && ChargesOk(steps, attempt, backing)
    ensures Drawn(EntriesOf(steps[0], steps[0].charges, backing))[Key(role, bytes)]
         == if HasRole(steps[0].kind, role) then ChargeCount(steps[0].charges, backing, bytes) else 0
  {
    var step := steps[0];
    if RoleOf(step.kind).Some? {
      EntriesCount(step, step.charges, backing, role, bytes);
    } else {
      RoleIff(step.kind, role);
      forall j | 0 <= j < |step.charges| ensures step.charges[j].backing != backing {
        assert step.charges[j].backing == backing ==> ChargeOk(steps[0], steps[0].charges[j]);
      }
      NoEntries(step, step.charges, backing);
    }
  }

  lemma {:induction false} NoEntries(step: Step, charges: seq<Charge>, backing: string)
    requires forall j | 0 <= j < |charges| :: charges[j].backing != backing
    ensures EntriesOf(step, charges, backing) == []
  {
    if charges == [] {
    } else {
      NoEntries(step, charges[1..], backing);
    }
  }

  lemma {:induction false} EntriesOk(step: Step, charges: seq<Charge>, backing: string)
    ensures (forall e | e in EntriesOf(step, charges, backing) :: EntryOk(e)) <==>
      forall j | 0 <= j < |charges| && charges[j].backing == backing :: ChargeOk(step, charges[j])
  {
    if charges == [] {
    } else {
      var rest := charges[1..];
      EntriesOk(step, rest, backing);
      assert forall j | 0 <= j < |rest| :: rest[j] == charges[j + 1];
      EntryIff(step, charges[0]);
      hide ChargeOk;
      hide EntryOk;
      if forall j | 0 <= j < |charges| && charges[j].backing == backing :: ChargeOk(step, charges[j]) {
        forall j | 0 <= j < |rest| && rest[j].backing == backing ensures ChargeOk(step, rest[j]) {
          assert rest[j] == charges[j + 1];
        }
      }
      if forall e | e in EntriesOf(step, charges, backing) :: EntryOk(e) {
        assert forall e | e in EntriesOf(step, rest, backing) :: e in EntriesOf(step, charges, backing);
        forall j | 0 <= j < |charges| && charges[j].backing == backing ensures ChargeOk(step, charges[j]) {
          if j == 0 {
            assert EntriesOf(step, charges, backing)[0] == Entry(RoleOf(step.kind), step.observed, charges[0]);
            assert EntriesOf(step, charges, backing)[0] in EntriesOf(step, charges, backing);
          } else {
            assert charges[j] == rest[j - 1];
          }
        }
      }
    }
  }

  lemma EntryIff(step: Step, c: Charge)
    ensures EntryOk(Entry(RoleOf(step.kind), step.observed, c)) <==> ChargeOk(step, c)
  {
    RoleIff(step.kind, "root");
  }

  lemma {:induction false} JournalOk(steps: seq<Step>, attempt: nat, backing: string)
    ensures (forall e | e in From(steps, attempt, backing) :: EntryOk(e)) <==> ChargesOk(steps, attempt, backing)
  {
    if steps == [] {
    } else {
      hide From;
      hide EntriesOf;
      hide EntryOk;
      FromHead(steps, attempt, backing);
      JournalOk(steps[1..], attempt, backing);
      EntriesOk(steps[0], steps[0].charges, backing);
      HeadTailOk(steps, attempt, backing);
      hide ChargesOk;
    }
  }

  lemma HeadTailOk(steps: seq<Step>, attempt: nat, backing: string)
    requires steps != []
    ensures ChargesOk(steps, attempt, backing) <==>
      && ChargesOk(steps[1..], attempt, backing)
      && (steps[0].attempt == attempt ==>
            forall j | 0 <= j < |steps[0].charges| && steps[0].charges[j].backing == backing :: ChargeOk(steps[0], steps[0].charges[j]))
  {
    hide ChargeOk;
    if ChargesOk(steps, attempt, backing) { TailOk(steps, attempt, backing); }
    if ChargesOk(steps[1..], attempt, backing) {
      forall i, j | 0 < i < |steps| && steps[i].attempt == attempt && 0 <= j < |steps[i].charges| && steps[i].charges[j].backing == backing
        ensures ChargeOk(steps[i], steps[i].charges[j])
      {
        assert steps[i] == steps[1..][i - 1];
      }
    }
  }

  // ------------------------------------------------------------ the root step

  predicate OnlyRootFrom(r: Record, attempt: nat, n: nat, k: nat) {
    IsRootStep(r, attempt, k) && forall i | n <= i < |r.steps| && i != k :: !IsRootStep(r, attempt, i)
  }

  function RootsFrom(r: Record, attempt: nat, n: nat): seq<Step>
    requires n <= |r.steps|
  {
    RootsOf(StepsOf(r.steps[n..], attempt))
  }

  lemma RootsHead(r: Record, attempt: nat, n: nat)
    requires n < |r.steps|
    ensures RootsFrom(r, attempt, n)
         == (if IsRootStep(r, attempt, n) then [r.steps[n]] else []) + RootsFrom(r, attempt, n + 1)
  {
    assert r.steps[n..][1..] == r.steps[n + 1..] && r.steps[n..][0] == r.steps[n];
    var rest := StepsOf(r.steps[n + 1..], attempt);
    if r.steps[n].attempt == attempt {
      assert ([r.steps[n]] + rest)[1..] == rest;
    } else {
      assert [] + rest == rest;
      assert [] + RootsOf(rest) == RootsOf(rest);
    }
  }

  lemma {:induction false} RootsMean(r: Record, attempt: nat, n: nat)
    requires n <= |r.steps|
    ensures RootsFrom(r, attempt, n) == [] <==> forall i | n <= i < |r.steps| :: !IsRootStep(r, attempt, i)
    ensures |RootsFrom(r, attempt, n)| == 1 ==>
      exists k | n <= k < |r.steps| :: OnlyRootFrom(r, attempt, n, k) && RootsFrom(r, attempt, n) == [r.steps[k]]
    decreases |r.steps| - n
  {
    if n == |r.steps| {
      assert r.steps[n..] == [];
    } else {
      RootsHead(r, attempt, n);
      RootsMean(r, attempt, n + 1);
      hide RootsFrom;
      var rest := RootsFrom(r, attempt, n + 1);
      if IsRootStep(r, attempt, n) {
        if rest == [] { assert OnlyRootFrom(r, attempt, n, n); }
      } else {
        assert [] + rest == rest;
        if |rest| == 1 {
          var k :| n + 1 <= k < |r.steps| && OnlyRootFrom(r, attempt, n + 1, k) && rest == [r.steps[k]];
          assert OnlyRootFrom(r, attempt, n, k);
        }
      }
    }
  }

  lemma {:induction false} RootFound(r: Record, attempt: nat, n: nat, k: nat)
    requires n <= k < |r.steps| && OnlyRootFrom(r, attempt, n, k)
    ensures RootsFrom(r, attempt, n) == [r.steps[k]]
    decreases |r.steps| - n
  {
    RootsHead(r, attempt, n);
    hide RootsFrom;
    if n == k {
      RootsMean(r, attempt, n + 1);
      assert forall i | n + 1 <= i < |r.steps| :: !IsRootStep(r, attempt, i);
    } else {
      assert !IsRootStep(r, attempt, n);
      assert OnlyRootFrom(r, attempt, n + 1, k);
      RootFound(r, attempt, n + 1, k);
      assert [] + RootsFrom(r, attempt, n + 1) == RootsFrom(r, attempt, n + 1);
    }
  }

  lemma RootIff(r: Record, attempt: nat)
    ensures var roots := RootsOf(StepsOf(r.steps, attempt));
      && (|roots| == 1 ==> exists k | 0 <= k < |r.steps| :: OnlyRootStep(r, attempt, k) && roots == [r.steps[k]])
      && (forall k | 0 <= k < |r.steps| && OnlyRootStep(r, attempt, k) :: roots == [r.steps[k]])
  {
    assert r.steps[0..] == r.steps;
    var roots := RootsFrom(r, attempt, 0);
    RootsMean(r, attempt, 0);
    if |roots| == 1 {
      var k :| 0 <= k < |r.steps| && OnlyRootFrom(r, attempt, 0, k) && roots == [r.steps[k]];
      assert OnlyRootStep(r, attempt, k);
    }
    forall k | 0 <= k < |r.steps| && OnlyRootStep(r, attempt, k) ensures roots == [r.steps[k]] {
      assert OnlyRootFrom(r, attempt, 0, k);
      RootFound(r, attempt, 0, k);
    }
    hide StepsOf;
    hide RootsOf;
    hide IsRootStep;
  }

  // -------------------------------------------------------------- both ways

  /** The plan of the last attempt, or the intended one before any. */
  function PlanOf(r: Record): Plan { if r.attempts == [] then r.intent else r.attempts[|r.attempts| - 1] }

  /** The last attempt, or 0 before any. */
  predicate IsAttempt(r: Record, attempt: nat) { attempt + 1 == |r.attempts| || (r.attempts == [] && attempt == 0) }

  /** The journal draws the budget and is in order, by the counts of its charges. */
  lemma DrawsIff(r: Record, attempt: nat, charges: seq<PlanCharge>, backing: string)
    ensures var journal, budget := From(r.steps, attempt, backing), BudgetOf(charges, backing);
      Draws(journal, budget) && (forall i | 0 <= i < |journal| :: EntryOk(journal[i])) <==>
      ChargesOk(r.steps, attempt, backing) && WithinPlan(r, attempt, charges, backing)
  {
    hide From;
    hide EntryOk;
    hide WithinPlan;
    hide ChargesOk;
    hide BudgetOf;
    var journal, budget := From(r.steps, attempt, backing), BudgetOf(charges, backing);
    JournalOk(r.steps, attempt, backing);
    assert (forall e | e in journal :: EntryOk(e)) <==> forall i | 0 <= i < |journal| :: EntryOk(journal[i]);
    if ChargesOk(r.steps, attempt, backing) {
      CountsIff(r, attempt, charges, backing);
    }
    hide Drawn;
  }

  lemma CountsIff(r: Record, attempt: nat, charges: seq<PlanCharge>, backing: string)
    requires ChargesOk(r.steps, attempt, backing)
    ensures Draws(From(r.steps, attempt, backing), BudgetOf(charges, backing)) <==> WithinPlan(r, attempt, charges, backing)
  {
    var journal, budget := From(r.steps, attempt, backing), BudgetOf(charges, backing);
    hide From;
    hide ChargesOk;
    if Draws(journal, budget) {
      forall role, bytes ensures JournalCount(r.steps, attempt, backing, role, bytes) <= PlanCount(charges, backing, role, bytes) {
        JournalCounts(r.steps, attempt, backing, role, bytes);
        BudgetCounts(charges, backing, role, bytes);
      }
      assert WithinPlan(r, attempt, charges, backing);
    }
    if WithinPlan(r, attempt, charges, backing) {
      forall k ensures Drawn(journal)[k] <= multiset(budget)[k] {
        JournalCounts(r.steps, attempt, backing, k.role, k.bytes);
        BudgetCounts(charges, backing, k.role, k.bytes);
        assert k == Key(k.role, k.bytes);
      }
    }
  }

  lemma AcceptsAs(r: Record, attempt: nat, a: nat, b: nat, k: nat)
    requires IsAttempt(r, attempt) && AcceptableAs(r, PlanOf(r), attempt, a, b, k)
    ensures Accepts(r) && RootTarget(r) == Some(PlanOf(r).targets[a]) && RootsOf(ActiveSteps(r)) == [r.steps[k]]
  {
    hide From;
    hide WithinPlan;
    hide ChargesOk;
    hide Draws;
    hide EntryOk;
    hide BudgetOf;
    hide StepsOf;
    hide RootsOf;
    hide Entries;
    hide Acquired;
    hide Bytes;
    var plan := PlanOf(r);
    var backing := plan.targets[a].capacityKey;
    TargetIff(plan.targets, "root");
    TargetIff(plan.targets, "ephemeral");
    hide TargetOf;
    RootIff(r, attempt);
    hide OnlyRootStep;
    Same(r, attempt, backing);
    DrawsIff(r, attempt, plan.charges, backing);
    JournalSums(r.steps, attempt, backing);
    BudgetSums(plan.charges, backing);
  }

  lemma Same(r: Record, attempt: nat, backing: string)
    requires IsAttempt(r, attempt)
    ensures ActivePlan(r) == PlanOf(r) && ActiveAttempt(r) == attempt
    ensures From(r.steps, attempt, backing) == Entries(ActiveSteps(r), backing)
  {
  }

  /** transition_ledger accepts exactly the records whose last plan has a root and an
      ephemeral target on one backing, whose last attempt has one observed root step
      with its task and volumes, whose charges on the backing are all in order and no
      more, of any role and size, than the plan has, and whose acquired bytes are
      positive and within the planned ones. */
  lemma AcceptsIff(r: Record, attempt: nat)
    requires IsAttempt(r, attempt)
    ensures Accepts(r) <==> exists a: nat, b: nat, k: nat :: AcceptableAs(r, PlanOf(r), attempt, a, b, k)
  {
    hide AcceptableAs;
    if Accepts(r) {
      var a, b, k := Accepted(r, attempt);
    }
    if a: nat, b: nat, k: nat :| AcceptableAs(r, PlanOf(r), attempt, a, b, k) { AcceptsAs(r, attempt, a, b, k); }
    hide Accepts;
  }

  lemma Accepted(r: Record, attempt: nat) returns (a: nat, b: nat, k: nat)
    requires IsAttempt(r, attempt) && Accepts(r)
    ensures AcceptableAs(r, PlanOf(r), attempt, a, b, k)
  {
    hide From;
    hide WithinPlan;
    hide ChargesOk;
    hide Draws;
    hide EntryOk;
    hide OnlyRootStep;
    hide LastTarget;
    var plan := PlanOf(r);
    TargetIff(plan.targets, "root");
    TargetIff(plan.targets, "ephemeral");
    Same(r, attempt, Backing(r));
    a :| 0 <= a < |plan.targets| && LastTarget(plan.targets, a, "root") && RootTarget(r) == Some(plan.targets[a]);
    b :| 0 <= b < |plan.targets| && LastTarget(plan.targets, b, "ephemeral")
         && TargetOf(plan.targets, "ephemeral") == Some(plan.targets[b]);
    RootIff(r, attempt);
    k :| 0 <= k < |r.steps| && OnlyRootStep(r, attempt, k) && RootsOf(StepsOf(r.steps, attempt)) == [r.steps[k]];
    var backing := plan.targets[a].capacityKey;
    DrawsIff(r, attempt, plan.charges, backing);
    JournalSums(r.steps, attempt, backing);
    BudgetSums(plan.charges, backing);
  }

  /** The totals of an accepted record. */
  lemma Totals(r: Record, attempt: nat)
    requires IsAttempt(r, attempt) && HasRoles(r)
    ensures Bytes(Budget(r)) == PlannedOn(PlanOf(r).charges, Backing(r))
    ensures Acquired(Journal(r)) == AcquiredOn(r.steps, attempt, Backing(r))
  {
    hide From;
    hide TargetOf;
    Same(r, attempt, Backing(r));
    JournalSums(r.steps, attempt, Backing(r));
    BudgetSums(PlanOf(r).charges, Backing(r));
    hide StepsOf;
    hide Entries;
    hide BudgetOf;
  }

  /** max(0, len(attempts) - 1) */
  function LastAttempt(r: Record): (n: nat)
    ensures IsAttempt(r, n)
  {
    if |r.attempts| > 1 then |r.attempts| - 1 else 0
  }

  ghost predicate Acceptable(r: Record) {
    exists a: nat, b: nat, k: nat :: AcceptableAs(r, PlanOf(r), LastAttempt(r), a, b, k)
  }

  /** `kept` are the steps of the attempt, all of them, each once and in order: `at`
      are their positions. */
  predicate Picks(steps: seq<Step>, attempt: nat, at: seq<nat>, kept: seq<Step>) {
    && |at| == |kept|
    && (forall i | 0 <= i < |at| :: at[i] < |steps| && kept[i] == steps[at[i]] && steps[at[i]].attempt == attempt)
    && (forall i, j | 0 <= i < j < |at| :: at[i] < at[j])
    && forall k | 0 <= k < |steps| && steps[k].attempt == attempt :: k in at
  }

  /** The same, for the steps from position n on. */
  predicate PicksFrom(steps: seq<Step>, n: nat, attempt: nat, at: seq<nat>, kept: seq<Step>) {
    Points(steps, n, attempt, at, kept) && Climbs(at) && Covers(steps, n, attempt, at)
  }

  predicate Points(steps: seq<Step>, n: nat, attempt: nat, at: seq<nat>, kept: seq<Step>) {
    |at| == |kept| && forall i | 0 <= i < |at| :: n <= at[i] < |steps| && kept[i] == steps[at[i]] && steps[at[i]].attempt == attempt
  }

  predicate Climbs(at: seq<nat>) { forall i, j | 0 <= i < j < |at| :: at[i] < at[j] }

  predicate Covers(steps: seq<Step>, n: nat, attempt: nat, at: seq<nat>) {
    forall k | n <= k < |steps| && steps[k].attempt == attempt :: k in at
  }

  lemma PicksOne(steps: seq<Step>, n: nat, attempt: nat, at: seq<nat>, kept: seq<Step>)
    requires n < |steps| && steps[n].attempt == attempt && PicksFrom(steps, n + 1, attempt, at, kept)
    ensures PicksFrom(steps, n, attempt, [n] + at, [steps[n]] + kept)
  {
    OnePoints(steps, n, attempt, at, kept);
    OneClimbs(steps, n, attempt, at, kept);
    assert Covers(steps, n, attempt, [n] + at);
    hide Points;
    hide Climbs;
  }

  lemma OnePoints(steps: seq<Step>, n: nat, attempt: nat, at: seq<nat>, kept: seq<Step>)
    requires n < |steps| && steps[n].attempt == attempt && Points(steps, n + 1, attempt, at, kept)
    ensures Points(steps, n, attempt, [n] + at, [steps[n]] + kept)
  {
  }

  lemma OneClimbs(steps: seq<Step>, n: nat, attempt: nat, at: seq<nat>, kept: seq<Step>)
    requires Points(steps, n + 1, attempt, at, kept) && Climbs(at)
    ensures Climbs([n] + at)
  {
    var more := [n] + at;
    forall i, j | 0 <= i < j < |more| ensures more[i] < more[j] {
      assert more[j] == at[j - 1];
      if i > 0 { assert more[i] == at[i - 1]; }
    }
  }

  lemma PicksNone(steps: seq<Step>, n: nat, attempt: nat, at: seq<nat>, kept: seq<Step>)
    requires n < |steps| && steps[n].attempt != attempt && PicksFrom(steps, n + 1, attempt, at, kept)
    ensures PicksFrom(steps, n, attempt, at, kept)
  {
  }

  lemma {:induction false} StepsPickFrom(steps: seq<Step>, n: nat, attempt: nat) returns (at: seq<nat>)
    requires n <= |steps|
    ensures PicksFrom(steps, n, attempt, at, StepsOf(steps[n..], attempt))
    decreases |steps| - n
  {
    if n == |steps| {
      at := [];
    } else {
      at := StepsPickFrom(steps, n + 1, attempt);
      hide PicksFrom;
      assert steps[n..][0] == steps[n] && steps[n..][1..] == steps[n + 1..];
      var rest := StepsOf(steps[n + 1..], attempt);
      if steps[n].attempt == attempt {
        PicksOne(steps, n, attempt, at, rest);
        at := [n] + at;
      } else {
        PicksNone(steps, n, attempt, at, rest);
        assert [] + rest == rest;
      }
    }
  }

  lemma StepsPick(steps: seq<Step>, attempt: nat) returns (at: seq<nat>)
    ensures Picks(steps, attempt, at, StepsOf(steps, attempt))
  {
    assert steps[0..] == steps;
    at := StepsPickFrom(steps, 0, attempt);
    hide StepsOf;
  }

  /** What the balance of an accepted record says. */
  ghost predicate BalanceOf(r: Record, b: Balance) {
    && b.planned == PlannedOn(PlanOf(r).charges, b.root.capacityKey)
    && b.acquired == AcquiredOn(r.steps, LastAttempt(r), b.root.capacityKey)
    && b.remaining == b.planned - b.acquired
    && (exists a | 0 <= a < |PlanOf(r).targets| :: LastTarget(PlanOf(r).targets, a, "root") && b.root == PlanOf(r).targets[a])
    && (exists k | 0 <= k < |r.steps| :: OnlyRootStep(r, LastAttempt(r), k) && b.rootStep == r.steps[k])
    && (exists at: seq<nat> :: Picks(r.steps, LastAttempt(r), at, b.steps))
  }

  lemma Balanced(r: Record, b: Balance)
    requires Accepts(r) && b.root == RootTarget(r).value && [b.rootStep] == RootsOf(ActiveSteps(r))
    requires b.planned == Bytes(Budget(r)) && b.acquired == Acquired(Journal(r)) && b.remaining == b.planned - b.acquired
    requires b.steps == ActiveSteps(r)
    ensures Acceptable(r) && BalanceOf(r, b)
  {
    var attempt := LastAttempt(r);
    AcceptsIff(r, attempt);
    var a, e, k := Accepted(r, attempt);
    AcceptsAs(r, attempt, a, e, k);
    Totals(r, attempt);
    hide Accepts;
    hide WithinPlan;
    hide ChargesOk;
    assert LastTarget(PlanOf(r).targets, a, "root") && b.root == PlanOf(r).targets[a];
    assert OnlyRootStep(r, attempt, k);
    assert [b.rootStep][0] == r.steps[k];
    var at := StepsPick(r.steps, attempt);
    hide Picks;
  }
}
